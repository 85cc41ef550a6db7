/** From the first bytes of a request to a bucket of the hash table: the request line, its
    second word without the query, and the DJB hash of that. */
module UriHash {
  import opened Modular
  import opened Relay

  const URI_LINE_LEN: nat := 200
  const HASHTABLESIZE: nat := 65535
  const WORD: nat := 0x1_0000_0000
  const SHORT: nat := 0x1_0000

  // ----- the DJB hash

  /** A byte as a plain (signed) char. */
  function Char(b: Byte): (c: int)
    ensures -128 <= c < 128 && (c - b) % 256 == 0
  {
    if b < 128 then b else b - 256
  }

  function Pow33(n: nat): nat {
    if n == 0 then 1 else 33 * Pow33(n - 1)
  }

  /** The sum of the characters weighted by falling powers of 33. */
  function Weighted(s: seq<Byte>): int {
    if s == [] then 0 else Char(s[0]) * Pow33(|s| - 1) + Weighted(s[1..])
  }

  /** The polynomial the hash is meant to be. */
  function Polynomial(s: seq<Byte>): int {
    5381 * Pow33(|s|) + Weighted(s)
  }

  lemma {:induction false} WeightedSnoc(s: seq<Byte>, b: Byte)
    ensures Weighted(s + [b]) == 33 * Weighted(s) + Char(b)
  {
    if s == [] {
      assert [b][1..] == [];
    } else {
      var t := s + [b];
      WeightedSnoc(s[1..], b);
      assert t[1..] == s[1..] + [b];
      var c, p := Char(s[0]), Pow33(|s| - 1);
      assert Pow33(|s|) == 33 * p;
      assert c * (33 * p) == 33 * (c * p);
    }
  }

  /** The hash starts at 5381, and every further character multiplies it by 33 and is added. */
  lemma {:induction false} PolynomialGrows(s: seq<Byte>, b: Byte)
    ensures Polynomial([]) == 5381 && Polynomial(s + [b]) == 33 * Polynomial(s) + Char(b)
  {
    WeightedSnoc(s, b);
  }

  /** One round of the loop, in arithmetic modulo 2^32, is one step of Horner's rule. */
  lemma {:induction false} Round(h: nat, p: int, c: int)
    requires h == p % WORD
    ensures (((h * 32) % WORD + h) % WORD + c) % WORD == (33 * p + c) % WORD
  {
    var k := p / WORD;
    assert p == k * WORD + h;
    var a := (h * 32) / WORD;
    var x := (h * 32) % WORD + h;
    assert x == 33 * h - a * WORD;
    var d := x / WORD;
    var y := x % WORD + c;
    assert y == 33 * h + c - (a + d) * WORD;
    assert 33 * p + c == y + (33 * k + a + d) * WORD;
    ModShift(y, 33 * k + a + d, WORD);
  }

  lemma {:induction false} Truncate(p: int)
    ensures (p % WORD) % SHORT == p % SHORT
  {
    assert WORD == SHORT * SHORT;
    var k := p / WORD;
    assert p == p % WORD + (k * SHORT) * SHORT;
    ModShift(p % WORD, k * SHORT, SHORT);
  }

  lemma {:induction false} NextRound(s: seq<Byte>, i: nat, h: nat)
    requires i < |s| && h == Polynomial(s[..i]) % WORD
    ensures (((h * 32) % WORD + h) % WORD + Char(s[i])) % WORD == Polynomial(s[..i + 1]) % WORD
  {
    Round(h, Polynomial(s[..i]), Char(s[i]));
    PolynomialGrows(s[..i], s[i]);
    assert s[..i + 1] == s[..i] + [s[i]];
    hide Polynomial;
  }

  /** DJBHash: a loop over a wrapping 32-bit accumulator, truncated to 16 bits, computes the
      polynomial modulo 2^16. */
  method DjbHash(s: seq<Byte>) returns (hash: nat)
    ensures hash == Polynomial(s) % SHORT
  {
    var h := 5381;
    assert Polynomial(s[..0]) == 5381;
    hide Polynomial;
    for i := 0 to |s|
      invariant 0 <= h < WORD && h == Polynomial(s[..i]) % WORD
    {
      NextRound(s, i, h);
      h := (((h * 32) % WORD + h) % WORD + Char(s[i])) % WORD;
    }
    assert s[..|s|] == s;
    Truncate(Polynomial(s));
    hash := h % SHORT;
  }

  /** The bucket of a path; the last entry of the table is never one. */
  function Bucket(path: seq<Byte>): (bucket: nat)
    ensures bucket < HASHTABLESIZE - 1
  {
    (Polynomial(path) % SHORT) % (HASHTABLESIZE - 1)
  }

  // ----- the request line

  const NUL: Byte := 0
  const NEWLINE: Byte := 10
  const SPACE: Byte := 32
  const QUESTION: Byte := 63

  /** The position of the first b in s, or the length of s. */
  function Find(s: seq<Byte>, b: Byte): (i: nat)
    ensures i <= |s| && b !in s[..i] && (i < |s| ==> s[i] == b)
  {
    if s == [] || s[0] == b then 0
    else
      var i := 1 + Find(s[1..], b);
      assert s[..i] == [s[0]] + s[1..][..i - 1];
      i
  }

  lemma {:induction false} FindAt(s: seq<Byte>, b: Byte, i: nat)
    requires i <= |s| && b !in s[..i] && (i == |s| || s[i] == b)
    ensures Find(s, b) == i
  {
  }

  /** s without the separators it starts with. */
  function SkipLeading(s: seq<Byte>, b: Byte): seq<Byte> {
    if s == [] || s[0] != b then s else SkipLeading(s[1..], b)
  }

  /** The first token of s, as strtok finds it. */
  function Token(s: seq<Byte>, b: Byte): Option<seq<Byte>> {
    var t := SkipLeading(s, b);
    if t == [] then None else Some(t[..Find(t, b)])
  }

  /** What a request asks for. Undefined stands for the two cases in which the source reads
      memory it should not: a line without an end, and an URI of question marks only. */
  datatype Request = NotHttp | Resource(path: seq<Byte>) | Undefined

  /** The second word of a line without its query part. */
  function RequestOf(line: seq<Byte>): Request {
    var start := Find(line, SPACE);
    match Token(line[start..], SPACE)
    case None => NotHttp
    case Some(uri) =>
      if QUESTION in uri then
        match Token(uri, QUESTION)
        case None => Undefined
        case Some(path) => Resource(path)
      else Resource(uri)
  }

  /** The line as a C string: what is copied up to a newline or to the size of the line
      buffer, up to the first NUL; None when nothing ends it inside the line buffer. */
  function Line(buffer: seq<Byte>): Option<seq<Byte>> {
    var end := Find(buffer, NEWLINE);
    var size := Min(URI_LINE_LEN, if end < |buffer| then end + 1 else |buffer|);
    var copy := buffer[..size];
    var stop := Find(copy, NUL);
    if stop == URI_LINE_LEN then None else Some(copy[..stop])
  }

  function Parse(buffer: seq<Byte>): Request {
    match Line(buffer)
    case None => Undefined
    case Some(line) => RequestOf(line)
  }

  lemma {:induction false} TokenIs(s: seq<Byte>, b: Byte, token: seq<Byte>, rest: seq<Byte>)
    requires token != [] && b !in token && (rest == [] || rest[0] == b)
    requires s == token + rest
    ensures Token(s, b) == Some(token)
  {
    assert s[0] == token[0];
    assert token[0] in token;
    assert SkipLeading(s, b) == s;
    assert s[..|token|] == token;
    FindAt(s, b, |token|);
  }

  lemma {:induction false} SkipOne(s: seq<Byte>, b: Byte)
    ensures Token([b] + s, b) == Token(s, b)
  {
    assert ([b] + s)[1..] == s;
    assert SkipLeading([b] + s, b) == SkipLeading(s, b);
  }

  /** A well-formed request line asks for its path, whatever its query: verb, space, path,
      optionally a question mark and a query, space, and the rest. */
  lemma {:induction false} QueryIsIgnored(verb: seq<Byte>, path: seq<Byte>, query: Option<seq<Byte>>, rest: seq<Byte>)
    requires SPACE !in verb
    requires path != [] && SPACE !in path && QUESTION !in path
    requires query.Some? ==> SPACE !in query.value
    ensures var uri := path + (if query.Some? then [QUESTION] + query.value else []);
      RequestOf(verb + [SPACE] + uri + [SPACE] + rest) == Resource(path)
  {
    var tail := if query.Some? then [QUESTION] + query.value else [];
    var uri := path + tail;
    var line := verb + [SPACE] + uri + [SPACE] + rest;
    assert line[..|verb|] == verb;
    FindAt(line, SPACE, |verb|);
    assert line[|verb|..] == [SPACE] + (uri + ([SPACE] + rest));
    SkipOne(uri + ([SPACE] + rest), SPACE);
    assert SPACE !in uri;
    TokenIs(uri + ([SPACE] + rest), SPACE, uri, [SPACE] + rest);
    if query.Some? {
      assert uri[|path|] == QUESTION;
      TokenIs(uri, QUESTION, path, tail);
    } else {
      assert uri == path;
    }
  }

  lemma {:induction false} LineIs(buffer: seq<Byte>, text: seq<Byte>)
    requires |text| + 1 < URI_LINE_LEN && NEWLINE !in text && NUL !in text
    requires text + [NEWLINE] <= buffer
    ensures Line(buffer) == Some(text + [NEWLINE])
  {
    assert buffer[..|text|] == text && buffer[|text|] == NEWLINE;
    FindAt(buffer, NEWLINE, |text|);
    var copy := buffer[..|text| + 1];
    assert copy == text + [NEWLINE];
    assert copy[..|copy|] == copy;
    FindAt(copy, NUL, |copy|);
  }

  /** Requests for the same path share a bucket: whatever verbs, queries, protocol versions
      and further bytes the two buffers hold, when both lines end within the line buffer. */
  lemma {:induction false} SamePathSameBucket(
    buffer: seq<Byte>, verb: seq<Byte>, path: seq<Byte>, query: Option<seq<Byte>>, rest: seq<Byte>)
    requires SPACE !in verb
    requires path != [] && SPACE !in path && QUESTION !in path
    requires query.Some? ==> SPACE !in query.value
    requires var text := verb + [SPACE] + (path + (if query.Some? then [QUESTION] + query.value else [])) + [SPACE] + rest;
      |text| + 1 < URI_LINE_LEN && NEWLINE !in text && NUL !in text && text + [NEWLINE] <= buffer
    ensures Parse(buffer) == Resource(path)
  {
    var uri := path + (if query.Some? then [QUESTION] + query.value else []);
    var text := verb + [SPACE] + uri + [SPACE] + rest;
    LineIs(buffer, text);
    QueryIsIgnored(verb, path, query, rest + [NEWLINE]);
    assert text + [NEWLINE] == verb + [SPACE] + uri + [SPACE] + (rest + [NEWLINE]);
  }

  lemma {:induction false} SkipLeadingAll(s: seq<Byte>, b: Byte)
    ensures SkipLeading(s, b) == [] <==> forall i :: 0 <= i < |s| ==> s[i] == b
  {
    if s != [] {
      SkipLeadingAll(s[1..], b);
      if s[0] == b && SkipLeading(s, b) == [] {
        assert forall i :: 1 <= i < |s| ==> s[1..][i - 1] == s[i];
        assert forall i :: 0 <= i < |s| ==> s[i] == b by {
          forall i | 0 <= i < |s| ensures s[i] == b {
            if i > 0 { assert s[1..][i - 1] == b; }
          }
        }
      }
    }
  }

  /** On a line that ends, the source dereferences a null pointer exactly when the second
      word consists of question marks only. */
  lemma {:induction false} UndefinedIff(line: seq<Byte>)
    ensures RequestOf(line) == Undefined <==>
      var uri := Token(line[Find(line, SPACE)..], SPACE);
      uri.Some? && forall i :: 0 <= i < |uri.value| ==> uri.value[i] == QUESTION
  {
    var uri := Token(line[Find(line, SPACE)..], SPACE);
    if uri.Some? {
      SkipLeadingAll(uri.value, QUESTION);
      TokenNotEmpty(line[Find(line, SPACE)..], SPACE);
      if forall i :: 0 <= i < |uri.value| ==> uri.value[i] == QUESTION {
        assert uri.value[0] in uri.value;
      }
    }
  }

  lemma {:induction false} TokenNotEmpty(s: seq<Byte>, b: Byte)
    ensures Token(s, b).Some? ==> Token(s, b).value != []
  {
    SkipLeadingHead(s, b);
  }

  lemma {:induction false} SkipLeadingHead(s: seq<Byte>, b: Byte)
    ensures SkipLeading(s, b) == [] || SkipLeading(s, b)[0] != b
  {
    if s != [] && s[0] == b {
      SkipLeadingHead(s[1..], b);
    }
  }

  /** A line is no HTTP request exactly when nothing but spaces follows its first space. */
  lemma {:induction false} NotHttpIff(line: seq<Byte>)
    ensures RequestOf(line) == NotHttp <==> forall i, j :: 0 <= i < j < |line| && line[i] == SPACE ==> line[j] == SPACE
  {
    var start := Find(line, SPACE);
    var tail := line[start..];
    SkipLeadingAll(tail, SPACE);
    assert forall i :: 0 <= i < start ==> line[i] in line[..start];
    if forall i :: 0 <= i < |tail| ==> tail[i] == SPACE {
      forall i, j | 0 <= i < j < |line| && line[i] == SPACE ensures line[j] == SPACE {
        assert tail[j - start] == SPACE;
      }
    } else {
      var k :| 0 <= k < |tail| && tail[k] != SPACE;
      assert line[start] == SPACE && line[start + k] != SPACE;
    }
  }

  lemma {:induction false} SkipMany(gap: seq<Byte>, s: seq<Byte>, b: Byte)
    requires (forall i :: 0 <= i < |gap| ==> gap[i] == b) && (s == [] || s[0] != b)
    ensures SkipLeading(gap + s, b) == s
  {
    if gap == [] {
      assert gap + s == s;
    } else {
      SkipMany(gap[1..], s, b);
      assert (gap + s)[1..] == gap[1..] + s;
    }
  }

  /** Behind any number of separators, the token is what comes before the next one. */
  lemma {:induction false} TokenBehind(gap: seq<Byte>, token: seq<Byte>, rest: seq<Byte>, b: Byte)
    requires forall i :: 0 <= i < |gap| ==> gap[i] == b
    requires token != [] && b !in token && (rest == [] || rest[0] == b)
    ensures Token(gap + token + rest, b) == Some(token)
  {
    var s := token + rest;
    assert token[0] in token && s[0] == token[0];
    SkipMany(gap, s, b);
    assert gap + token + rest == gap + s;
    assert s[..|token|] == token;
    FindAt(s, b, |token|);
  }

  /** What every request with a path asks for: after the first word and any number of spaces, the
      word up to the next space or the end, without leading question marks and without what
      follows the next one. */
  lemma {:induction false} PathExact(
    verb: seq<Byte>, gap: seq<Byte>, marks: seq<Byte>, path: seq<Byte>, query: seq<Byte>, rest: seq<Byte>)
    requires SPACE !in verb && gap != [] && (forall i :: 0 <= i < |gap| ==> gap[i] == SPACE)
    requires forall i :: 0 <= i < |marks| ==> marks[i] == QUESTION
    requires path != [] && SPACE !in path && QUESTION !in path
    requires SPACE !in query && (query == [] || query[0] == QUESTION)
    requires rest == [] || rest[0] == SPACE
    ensures RequestOf(verb + (gap + (marks + path + query) + rest)) == Resource(path)
  {
    var uri := marks + path + query;
    var line := verb + (gap + uri + rest);
    assert line[..|verb|] == verb && line[|verb|] == gap[0];
    FindAt(line, SPACE, |verb|);
    assert line[|verb|..] == gap + uri + rest;
    assert SPACE !in uri;
    TokenBehind(gap, uri, rest, SPACE);
    if marks == [] && query == [] {
      assert uri == path;
    } else {
      assert QUESTION in uri by {
        if marks != [] { assert uri[0] == QUESTION; } else { assert uri[|path|] == QUESTION; }
      }
      TokenBehind(marks, path, query, QUESTION);
    }
  }

  /** What is taken for the first line: the bytes up to and with the first newline, or up to a
      NUL or the end of what is there; and nothing ends it exactly when the line buffer is
      filled first. */
  lemma {:induction false} LineExact(buffer: seq<Byte>)
    ensures Line(buffer) == None <==>
      |buffer| >= URI_LINE_LEN && NUL !in buffer[..URI_LINE_LEN] && NEWLINE !in buffer[..URI_LINE_LEN - 1]
    ensures Line(buffer).Some? ==>
      var line := Line(buffer).value;
      && line <= buffer && |line| < URI_LINE_LEN && NUL !in line
      && (forall i :: 0 <= i < |line| - 1 ==> line[i] != NEWLINE)
      && (|line| == |buffer| || buffer[|line|] == NUL || (line != [] && line[|line| - 1] == NEWLINE))
  {
    var end := Find(buffer, NEWLINE);
    var size := Min(URI_LINE_LEN, if end < |buffer| then end + 1 else |buffer|);
    var copy := buffer[..size];
    var stop := Find(copy, NUL);
    assert forall i :: 0 <= i < end ==> buffer[i] in buffer[..end];
    assert forall i :: 0 <= i < stop ==> copy[i] in copy[..stop];
    if stop == URI_LINE_LEN {
      assert copy[..stop] == buffer[..URI_LINE_LEN];
      assert NEWLINE !in buffer[..URI_LINE_LEN - 1];
    } else {
      var line := copy[..stop];
      if stop < size {
        assert |buffer| >= URI_LINE_LEN ==> (stop < URI_LINE_LEN && buffer[..URI_LINE_LEN][stop] == NUL);
      } else if end < |buffer| {
        assert line[|line| - 1] == NEWLINE;
        assert |buffer| >= URI_LINE_LEN ==> buffer[..URI_LINE_LEN - 1][end] == NEWLINE;
      }
    }
  }
}
