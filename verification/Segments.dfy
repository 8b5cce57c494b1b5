/** A request that arrives in two pieces, each seen by an event of its own. */
module Segments {
  import opened Sequences
  import opened HeaderParser
  import opened RequestLine
  import opened RequestReader
  import opened WebBench
  import opened RoundTrip

  /** A connection before its first byte, with `buffer` read. */
  function Opened(buffer: string): Parse {
    Parse(StateParseUri, buffer, Get, "", Http11, Start, map[])
  }

  /** Two events: the second appends to what the first left in the buffer. */
  function TwoReads(a: string, b: string, bodyLength: string -> int): Option<Parse> {
    match Advance(Opened(a), bodyLength)
    case Blocked(p) =>
      (match Advance(p.(buffer := p.buffer + b), bodyLength)
       case Ready(q) => Some(q)
       case _ => None)
    case _ => None
  }

  // ---------------------------------------------------------------- cut inside the request line

  lemma LinesHaveCr(before: string, fs: seq<Field>, after: string)
    ensures fs != [] ==> CR in before + Lines(fs) + after
  {
    if fs != [] {
      var f := fs[|fs|-1];
      assert Line(f)[|f.key| + 2 + |f.value|] == CR;
      assert (before + Lines(fs) + after)[|before| + |Lines(fs[..|fs|-1])| + |f.key| + 2 + |f.value|] == CR;
    }
  }

  /** A piece without a CR that waits at all waits inside a field. */
  lemma WaitsInField(a: string)
    requires a != "" && CR !in a && a[0] != LF && Scan(Fresh(Start, map[]), a).Again?
    ensures InField(Scan(Fresh(Start, map[]), a).c.h)
  {
    var start := Fresh(Start, map[]);
    assert Describes(start, "", "", [], map[]);
    var c, blank, done := ScanSound(start, "", a, "", [], map[]);
    assert "" + a == a;
    LinesHaveCr(blank, done, Partial(c));
    assert c.h.Start? ==> a == blank + "" + "";
  }

  lemma NoBlockWithoutCr(a: string)
    requires CR !in a
    ensures !Scan(Fresh(Start, map[]), a).Success?
  {
    ExactLanguage(a, map[]);
    hide Scan;
    if HasBlock(a) {
      var blank, fs :| GoodBlock(blank, fs) && Block(blank, fs) <= a;
      LinesHaveCr(blank, fs, "\r\n");
    }
  }

  lemma NoLineTaken(a: string)
    requires CR !in a
    ensures ParseUri(a, Get, "", Http11).buffer == a
  {
    forall j: nat | j < |a| ensures !Occurs(a, "\r", j) { assert a[j..j + 1][0] == a[j]; }
    assert Search(a, "\r", 0).None?;
    hide FindMethod, ParseTarget;
  }

  /** Cut inside its first line, a request is never read: the code takes the piece for the whole line. */
  lemma CutLineIsLost(a: string, b: string, bodyLength: string -> int)
    requires a != "" && CR !in a && a[0] != LF
    ensures TwoReads(a, b, bodyLength).None?
  {
    var u := ParseUri(a, Get, "", Http11);
    NoLineTaken(a);
    NoBlockWithoutCr(a);
    hide ParseUri, Scan;
    if u.ok && Scan(Fresh(Start, map[]), a).Again? {
      var c := Scan(Fresh(Start, map[]), a).c;
      WaitsInField(a);
      UnmarkedKeyNeverSucceeds(Fresh(c.h, c.headers), c.line + b);
    }
  }

  // ---------------------------------------------------------------- cut inside the header block

  lemma {:induction false} KeysStay(c: Cursor, s: string)
    requires Scan(c, s).Success?
    ensures forall k | k in c.headers :: k in Scan(c, s).headers
    decreases |s|
  {
    if s != "" && Feed(c, s[0]).Go? { KeysStay(Feed(c, s[0]).c, s[1..]); }
  }

  /** A name that begins with a line feed stays one. */
  lemma {:induction false} OddKey(c: Cursor, s: string) returns (k: string)
    requires InField(c.h) && c.key.Some? && c.key.value != "" && c.key.value[0] == LF
    requires Scan(c, s).Success?
    ensures k != "" && k[0] == LF && k in Scan(c, s).headers
    decreases |s|
  {
    var next := Feed(c, s[0]).c;
    if c.h.Cr? {
      k := c.key.value;
      KeysStay(next, s[1..]);
    } else {
      k := OddKey(next, s[1..]);
    }
  }

  /** What the second scan finds if the first stopped behind a field line, or in the empty line. */
  lemma ResumedBetweenFields(c: Cursor, b: string, headers: Headers)
    requires (c.h.Lf? && c.line == [LF]) || (c.h.EndCr? && c.line == [LF, CR])
    requires b != "" && forall k | k in headers :: k == "" || k[0] != LF
    ensures Scan(Fresh(c.h, c.headers), c.line + b) != Success(headers, "")
  {
    var f := Fresh(c.h, c.headers);
    var f1 := Drive1(f, [LF]);
    if c.h.Lf? {
      ScanAfter(f, [LF], b);
      if Scan(f1, b).Success? { var k := OddKey(f1, b); }
    } else {
      ScanAfter(f, [LF], [CR] + b);
      assert c.line + b == [LF] + ([CR] + b);
      ScanDone(f1, [CR] + b);
    }
  }

  /** What a piece of a block other than line breaks waits for, apart from its fields. */
  lemma WaitsLost(a: string)
    requires !Blank(a) && Scan(Fresh(Start, map[]), a).Again?
    ensures var c := Scan(Fresh(Start, map[]), a).c;
      InField(c.h) || (c.h.Lf? && c.line == [LF]) || (c.h.EndCr? && c.line == [LF, CR])
  {
    var start := Fresh(Start, map[]);
    assert Describes(start, "", "", [], map[]);
    var c, blank, done := ScanSound(start, "", a, "", [], map[]);
    assert "" + a == a;
    hide Scan, Lines, LastWins, GoodFields;
    assert c.h.Start? ==> a == blank + "" + "";
  }

  lemma CutBlockIsLost(a: string, b: string, headers: Headers)
    requires !Blank(a) && b != "" && Scan(Fresh(Start, map[]), a).Again?
    requires forall k | k in headers :: k == "" || k[0] != LF
    ensures var c := Scan(Fresh(Start, map[]), a).c; Scan(Fresh(c.h, c.headers), c.line + b) != Success(headers, "")
  {
    var c := Scan(Fresh(Start, map[]), a).c;
    WaitsLost(a);
    if InField(c.h) {
      UnmarkedKeyNeverSucceeds(Fresh(c.h, c.headers), c.line + b);
    } else {
      ResumedBetweenFields(c, b, headers);
    }
  }

  // ---------------------------------------------------------------- whole requests

  ghost predicate Readable(m: BenchMethod, target: string, host: string) {
    Direct(m) && GoodTarget(target) && GoodValue(host) && VerbSurvives(m, target)
  }

  function Expected(m: BenchMethod, target: string, v: Version, host: string, keepAlive: bool): Parse {
    Parse(StateAnalysis, "", if m.BenchGet? then Get else Head, FileOf(target), v, EndLf, FieldMap(v, host, keepAlive))
  }

  function BlockOf(v: Version, host: string, keepAlive: bool): string {
    Block("\n", RequestFields(v, Some(host), false, keepAlive))
  }

  /** Once the line and its CR are there, what counts is how the header parser takes the two pieces. */
  lemma AfterLine(m: BenchMethod, target: string, v: Version, host: string, keepAlive: bool,
                  a: string, b: string, bodyLength: string -> int)
    requires Readable(m, target, host)
    ensures var first := Scan(Fresh(Start, map[]), a);
      TwoReads(PrintLine(m, target, v) + "\r" + a, b, bodyLength) == Some(Expected(m, target, v, host, keepAlive))
      <==> first.Again?
           && Scan(Fresh(first.c.h, first.c.headers), first.c.line + b) == Success(FieldMap(v, host, keepAlive), "")
  {
    var verb := if m.BenchGet? then Get else Head;
    LineRead(m, target, v, a, Get, "", Http11);
    hide ParseUri, Scan, FieldMap, FileOf, PrintLine, Contains, GoodTarget, GoodValue, AdvanceHeaders;
    var p := Parse(StateParseHeaders, a, verb, FileOf(target), v, Start, map[]);
    assert Advance(Opened(PrintLine(m, target, v) + "\r" + a), bodyLength) == AdvanceHeaders(p, bodyLength);
    HeadersTwice(p, b, FieldMap(v, host, keepAlive), bodyLength);
  }

  lemma HeadersTwice(p: Parse, b: string, headers: Headers, bodyLength: string -> int)
    requires p.phase.StateParseHeaders? && p.h.Start? && p.headers == map[] && !p.verb.Post?
    ensures var first, q := Scan(Fresh(Start, map[]), p.buffer), AdvanceHeaders(p, bodyLength);
      q.Blocked? && Advance(q.p.(buffer := q.p.buffer + b), bodyLength)
                 == Ready(p.(phase := StateAnalysis, buffer := "", h := EndLf, headers := headers))
      <==> first.Again? && Scan(Fresh(first.c.h, first.c.headers), first.c.line + b) == Success(headers, "")
  {
    hide Scan;
  }

  lemma BlockStarts(v: Version, host: string, keepAlive: bool)
    ensures var s := BlockOf(v, host, keepAlive); |s| >= 2 && s[0] == LF && s[1] == 'U'
  {
    var fs := RequestFields(v, Some(host), false, keepAlive);
    LinesStart(fs);
    assert fs[0].key[0] == 'U';
  }

  lemma {:induction false} LinesStart(fs: seq<Field>)
    requires fs != [] && fs[0].key != ""
    ensures Lines(fs) != "" && Lines(fs)[0] == fs[0].key[0]
    decreases |fs|
  {
    if |fs| == 1 {
      assert fs[..0] == [];
      assert Lines(fs) == "" + Line(fs[0]);
    } else {
      LinesStart(fs[..|fs|-1]);
    }
  }

  lemma FieldMapKeys(v: Version, host: string, keepAlive: bool)
    ensures forall k | k in FieldMap(v, host, keepAlive) :: k == "" || k[0] != LF
  {
  }

  /** The pieces of a block: the parser needs all but the leading line break in one. */
  lemma BlockInTwo(v: Version, host: string, keepAlive: bool, k: nat)
    requires GoodValue(host) && k < |BlockOf(v, host, keepAlive)|
    ensures var s := BlockOf(v, host, keepAlive);
      var first := Scan(Fresh(Start, map[]), s[..k]);
      first.Again?
      && Scan(Fresh(first.c.h, first.c.headers), first.c.line + s[k..]) == Success(FieldMap(v, host, keepAlive), "")
      <==> k <= 1
  {
    var s := BlockOf(v, host, keepAlive);
    var start := Fresh(Start, map[]);
    BlockStarts(v, host, keepAlive);
    FieldMapKeys(v, host, keepAlive);
    HeadersRead(v, host, keepAlive);
    hide Block, FieldMap, RequestFields;
    if k <= 1 {
      assert Blank(s[..k]);
      DriveBlank(start, s[..k]);
      ScanAfter(start, s[..k], "");
      assert s[..k] + "" == s[..k] && start.line + s[..k] + s[k..] == s;
    } else {
      assert s[..k][1] == 'U';
      if Scan(start, s[..k]).Again? {
        CutBlockIsLost(s[..k], s[k..], FieldMap(v, host, keepAlive));
      }
    }
  }

  /** Where may a request be cut? It is read exactly as if it had come whole if, and only if, the first
      piece ends in the line break of the request line: behind its CR or behind its LF. */
  lemma CutRequest(m: BenchMethod, target: string, v: Version, host: string, reload: bool, keepAlive: bool,
                   n: nat, bodyLength: string -> int)
    requires Readable(m, target, host)
    requires 0 < n < |Print(m, target, Some(v), Some(host), reload, keepAlive)|
    ensures var text := Print(m, target, Some(v), Some(host), reload, keepAlive);
      TwoReads(text[..n], text[n..], bodyLength) == Some(Expected(m, target, v, host, keepAlive))
      <==> |PrintLine(m, target, v)| < n <= |PrintLine(m, target, v)| + 2
  {
    var text := Print(m, target, Some(v), Some(host), reload, keepAlive);
    var line, s := PrintLine(m, target, v), BlockOf(v, host, keepAlive);
    PrintSplits(m, target, v, host, reload, keepAlive);
    NoCr(m, target, v);
    LineNotBlank(m, target, v);
    hide Print, PrintLine, Block, TwoReads, Expected, FieldMap;
    assert text == line + "\r" + s;
    if n <= |line| {
      assert text[..n] == line[..n];
      CutLineIsLost(text[..n], text[n..], bodyLength);
    } else {
      var k := n - |line| - 1;
      assert text[..n] == line + "\r" + s[..k] && text[n..] == s[k..];
      AfterLine(m, target, v, host, keepAlive, s[..k], s[k..], bodyLength);
      BlockInTwo(v, host, keepAlive, k);
    }
  }

  /** No proper part of a block is a block. */
  lemma BlockNotEarly(v: Version, host: string, keepAlive: bool, k: nat)
    requires GoodValue(host) && k < |BlockOf(v, host, keepAlive)|
    ensures !Scan(Fresh(Start, map[]), BlockOf(v, host, keepAlive)[..k]).Success?
  {
    var s := BlockOf(v, host, keepAlive);
    HeadersRead(v, host, keepAlive);
    assert s[|s| - 2] == CR && s[|s| - 1] == LF;
    ExactLanguage(s[..k], map[]);
    hide Scan, RequestFields, FieldMap;
    if HasBlock(s[..k]) {
      var blank, fs :| GoodBlock(blank, fs) && Block(blank, fs) <= s[..k];
      BlockThenOne(blank, fs, s);
    }
  }

  /** If a block and more succeeds with nothing left, it is one more byte. */
  lemma BlockThenOne(blank: string, fs: seq<Field>, s: string)
    requires GoodBlock(blank, fs) && Block(blank, fs) <= s && Block(blank, fs) != s
    requires Scan(Fresh(Start, map[]), s).Success? && Scan(Fresh(Start, map[]), s).rest == ""
    ensures |s| >= 2 && s[|s| - 2] == LF
  {
    BlockEndsInLf(blank, fs);
    PrefixAccepted(s, map[], blank, fs);
  }

  lemma BlockEndsInLf(blank: string, fs: seq<Field>)
    ensures var b := Block(blank, fs); b != "" && b[|b| - 1] == LF
  {
    hide Lines;
  }

  /** A printed request is not complete before its last byte. */
  lemma NeverEarly(m: BenchMethod, target: string, v: Version, host: string, reload: bool, keepAlive: bool,
                   n: nat, bodyLength: string -> int)
    requires Readable(m, target, host)
    requires 0 < n < |Print(m, target, Some(v), Some(host), reload, keepAlive)|
    ensures !Advance(Opened(Print(m, target, Some(v), Some(host), reload, keepAlive)[..n]), bodyLength).Ready?
  {
    var text := Print(m, target, Some(v), Some(host), reload, keepAlive);
    var line, s := PrintLine(m, target, v), BlockOf(v, host, keepAlive);
    PrintSplits(m, target, v, host, reload, keepAlive);
    NoCr(m, target, v);
    hide Print, PrintLine, Block, Advance;
    assert text == line + "\r" + s;
    if n <= |line| {
      assert text[..n] == line[..n];
      NotReadyInLine(text[..n], bodyLength);
    } else {
      var k := n - |line| - 1;
      assert text[..n] == line + "\r" + s[..k];
      BlockNotEarly(v, host, keepAlive, k);
      NotReadyInBlock(m, target, v, host, s[..k], bodyLength);
    }
  }

  lemma NotReadyInLine(a: string, bodyLength: string -> int)
    requires CR !in a
    ensures !Advance(Opened(a), bodyLength).Ready?
  {
    NoLineTaken(a);
    NoBlockWithoutCr(a);
    hide ParseUri, Scan;
  }

  lemma NotReadyInBlock(m: BenchMethod, target: string, v: Version, host: string, a: string, bodyLength: string -> int)
    requires Readable(m, target, host) && !Scan(Fresh(Start, map[]), a).Success?
    ensures !Advance(Opened(PrintLine(m, target, v) + "\r" + a), bodyLength).Ready?
  {
    LineRead(m, target, v, a, Get, "", Http11);
    hide ParseUri, Scan, Contains, FileOf, PrintLine, GoodTarget;
  }

  lemma LineNotBlank(m: BenchMethod, target: string, v: Version)
    ensures var line := PrintLine(m, target, v); line != "" && line[0] != LF
  {
    assert PrintLine(m, target, v)[0] == MethodName(m)[0];
  }

  // ---------------------------------------------------------------- any number of pieces

  /** One event after another, each with a piece of the text: the request that the last of them completes. */
  function ReadPieces(p: Parse, pieces: seq<string>, bodyLength: string -> int): Option<Parse>
    decreases |pieces|
  {
    if pieces == [] then None
    else match Advance(p.(buffer := p.buffer + pieces[0]), bodyLength)
      case Blocked(q) => ReadPieces(q, pieces[1..], bodyLength)
      case Ready(q) => if |pieces| == 1 then Some(q) else None
      case _ => None
  }

  /** Every cut of a text into pieces is behind position `lo` and not behind `hi`, if the pieces begin at
      `from`. */
  predicate CutsWithin(pieces: seq<string>, from: nat, lo: nat, hi: nat)
    decreases |pieces|
  {
    |pieces| > 1 ==> lo < from + |pieces[0]| <= hi && CutsWithin(pieces[1..], from + |pieces[0]|, lo, hi)
  }

  lemma FlattenFirst(pieces: seq<string>)
    requires pieces != []
    ensures Flatten(pieces) == pieces[0] + Flatten(pieces[1..])
  {
    assert pieces == [pieces[0]] + pieces[1..];
    FlattenConcat([pieces[0]], pieces[1..]);
    assert Flatten([pieces[0]]) == "" + pieces[0] == pieces[0] by { assert [pieces[0]][..0] == []; }
  }

  ghost predicate HasOddKey(headers: Headers) {
    exists k | k in headers :: k != "" && k[0] == LF
  }

  ghost predicate OddKeyed(c: Cursor) {
    InField(c.h) && c.key.Some? && c.key.value != "" && c.key.value[0] == LF
  }

  /** A name that begins with a line feed is there to stay. */
  lemma {:induction false} OddStays(c: Cursor, s: string)
    requires HasOddKey(c.headers) || OddKeyed(c)
    ensures var r := Scan(c, s);
      (r.Success? ==> HasOddKey(r.headers)) && (r.Again? ==> HasOddKey(r.c.headers) || InField(r.c.h))
    decreases |s|
  {
    if s != "" && Feed(c, s[0]).Go? {
      var next := Feed(c, s[0]).c;
      if HasOddKey(c.headers) {
        var k :| k in c.headers && k != "" && k[0] == LF;
        assert k in next.headers;
      } else if c.h.Cr? {
        assert c.key.value in next.headers;
      }
      OddStays(next, s[1..]);
    }
  }

  lemma {:induction false} UnmarkedStays(c: Cursor, s: string)
    requires InField(c.h) && c.key.None?
    ensures !Scan(c, s).Success? && (Scan(c, s).Again? ==> InField(Scan(c, s).c.h))
    decreases |s|
  {
    if s != "" && Feed(c, s[0]).Go? { UnmarkedStays(Feed(c, s[0]).c, s[1..]); }
  }

  /** A request of which something got lost between two events, or that is taken for a POST. */
  ghost predicate Lost(p: Parse) {
    || ((p.phase.StateParseHeaders? || p.phase.StateRecvBody?) && p.verb.Post?)
    || (p.phase.StateParseHeaders?
        && (InField(p.h) || HasOddKey(p.headers)
            || (p.h.Lf? && p.buffer == [LF]) || (p.h.EndCr? && p.buffer == [LF, CR])))
  }

  /** It is never read as it was, and it stays lost. */
  lemma StaysLost(p: Parse, b: string, bodyLength: string -> int)
    requires Lost(p) && b != ""
    ensures match Advance(p.(buffer := p.buffer + b), bodyLength)
      case Blocked(q) => Lost(q)
      case Ready(q) => HasOddKey(q.headers) || q.buffer != "" || q.verb.Post?
      case _ => true
  {
    var f := Fresh(p.h, p.headers);
    if p.verb.Post? {
    } else if InField(p.h) {
      UnmarkedStays(f, p.buffer + b);
    } else if HasOddKey(p.headers) {
      OddStays(f, p.buffer + b);
    } else if p.h.Lf? {
      var f1 := Drive1(f, [LF]);
      ScanAfter(f, [LF], b);
      OddStays(f1, b);
    } else {
      var f1 := Drive1(f, [LF]);
      ScanAfter(f, [LF], [CR] + b);
      assert p.buffer + b == [LF] + ([CR] + b);
      ScanDone(f1, [CR] + b);
    }
    hide Scan, HasOddKey;
  }

  lemma {:induction false} LostForGood(p: Parse, pieces: seq<string>, expected: Parse, bodyLength: string -> int)
    requires Lost(p) && "" !in pieces
    requires !HasOddKey(expected.headers) && expected.buffer == "" && !expected.verb.Post?
    ensures ReadPieces(p, pieces, bodyLength) != Some(expected)
    decreases |pieces|
  {
    if pieces != [] {
      StaysLost(p, pieces[0], bodyLength);
      var v := Advance(p.(buffer := p.buffer + pieces[0]), bodyLength);
      hide Advance, Lost, HasOddKey;
      if v.Blocked? { LostForGood(v.p, pieces[1..], expected, bodyLength); }
    }
  }

  /** The pieces of a block behind its first k bytes, which are at most the line break before it. */
  lemma {:induction false} BlockInPieces(p: Parse, v: Version, host: string, keepAlive: bool, k: nat,
                                         pieces: seq<string>, bodyLength: string -> int)
    requires GoodValue(host) && k <= 1 && pieces != [] && "" !in pieces && p.phase.StateParseHeaders? && !p.verb.Post?
    requires p.h.Start? && p.headers == map[] && p.buffer == BlockOf(v, host, keepAlive)[..k]
    requires Flatten(pieces) == BlockOf(v, host, keepAlive)[k..]
    ensures ReadPieces(p, pieces, bodyLength) == Some(BlockRead(p, v, host, keepAlive)) <==> CutsWithin(pieces, k, 0, 1)
    decreases |pieces|
  {
    var s, piece, rest := BlockOf(v, host, keepAlive), pieces[0], pieces[1..];
    var expected := BlockRead(p, v, host, keepAlive);
    FlattenFirst(pieces);
    assert s == s[..k] + s[k..];
    var n := k + |piece|;
    assert s[..n] == s[..k] + piece && s[n..] == Flatten(rest);
    hide Advance, BlockOf, Flatten, HasOddKey, Lost;
    if rest == [] {
      assert Flatten(rest) == "" && s[..n] == s;
      WholeBlock(p, v, host, keepAlive, bodyLength);
    } else {
      assert rest[0] in pieces && |rest[0]| > 0;
      FlattenFirst(rest);
      PieceOfBlock(p, v, host, keepAlive, n, bodyLength);
      var w := Advance(p.(buffer := s[..n]), bodyLength);
      if n <= 1 {
        BlockInPieces(w.p, v, host, keepAlive, n, rest, bodyLength);
      } else if w.Blocked? {
        NoOddKey(v, host, keepAlive);
        LostForGood(w.p, rest, expected, bodyLength);
      }
    }
  }

  function BlockRead(p: Parse, v: Version, host: string, keepAlive: bool): Parse {
    p.(phase := StateAnalysis, buffer := "", h := EndLf, headers := FieldMap(v, host, keepAlive))
  }

  lemma NoOddKey(v: Version, host: string, keepAlive: bool)
    ensures !HasOddKey(FieldMap(v, host, keepAlive))
  {
    FieldMapKeys(v, host, keepAlive);
    hide FieldMap;
  }

  lemma WholeBlock(p: Parse, v: Version, host: string, keepAlive: bool, bodyLength: string -> int)
    requires GoodValue(host) && p.phase.StateParseHeaders? && !p.verb.Post? && p.h.Start? && p.headers == map[]
    ensures Advance(p.(buffer := BlockOf(v, host, keepAlive)), bodyLength) == Ready(BlockRead(p, v, host, keepAlive))
  {
    HeadersRead(v, host, keepAlive);
    hide Block, FieldMap, RequestFields, Scan;
  }

  /** One proper piece: the line break can wait, but of more than that something is lost. */
  lemma PieceOfBlock(p: Parse, v: Version, host: string, keepAlive: bool, n: nat, bodyLength: string -> int)
    requires GoodValue(host) && 0 < n < |BlockOf(v, host, keepAlive)|
    requires p.phase.StateParseHeaders? && !p.verb.Post? && p.h.Start? && p.headers == map[]
    ensures var a := BlockOf(v, host, keepAlive)[..n]; var w := Advance(p.(buffer := a), bodyLength);
      if n <= 1 then w == Blocked(p.(buffer := a)) else !w.Ready? && (w.Blocked? ==> Lost(w.p))
  {
    var s, start := BlockOf(v, host, keepAlive), Fresh(Start, map[]);
    var a := s[..n];
    BlockStarts(v, host, keepAlive);
    BlockNotEarly(v, host, keepAlive, n);
    hide Block, RequestFields;
    if n <= 1 {
      DriveBlank(start, a);
      ScanAfter(start, a, "");
      assert a + "" == a && start.line + a == a;
    } else {
      assert a[1] == 'U';
      if Scan(start, a).Again? { WaitsLost(a); }
    }
  }

  lemma {:induction false} CutsShift(pieces: seq<string>, from: nat, shift: nat)
    requires "" !in pieces
    ensures CutsWithin(pieces, from + shift + 1, shift, shift + 2) <==> CutsWithin(pieces, from, 0, 1)
    decreases |pieces|
  {
    if |pieces| > 1 {
      assert pieces[0] in pieces && |pieces[0]| > 0;
      CutsShift(pieces[1..], from + |pieces[0]|, shift);
    }
  }

  /** The first piece ends in the request line. */
  lemma LineInPieces(a: string, rest: seq<string>, expected: Parse, bodyLength: string -> int)
    requires a != "" && CR !in a && a[0] != LF && "" !in rest && rest != []
    requires !HasOddKey(expected.headers) && expected.buffer == "" && !expected.verb.Post?
    ensures ReadPieces(Opened(""), [a] + rest, bodyLength) != Some(expected)
  {
    assert "" + a == a && ([a] + rest)[1..] == rest;
    NoLineTaken(a);
    NoBlockWithoutCr(a);
    if Scan(Fresh(Start, map[]), a).Again? { WaitsInField(a); }
    hide ParseUri, Scan, HasOddKey;
    var v := Advance(Opened(a), bodyLength);
    if v.Blocked? { LostForGood(v.p, rest, expected, bodyLength); }
  }

  /** It ends behind the request line: as if the header block were to come in pieces, unless that is where
      it ends. */
  function BlockPieces(a: string, rest: seq<string>): seq<string> {
    if a == "" then rest else [a] + rest
  }

  lemma CutsBehindLine(line: string, a: string, rest: seq<string>)
    requires "" !in rest && (rest != [] || a != "")
    ensures CutsWithin([line + "\r" + a] + rest, 0, |line|, |line| + 2) <==> CutsWithin(BlockPieces(a, rest), 0, 0, 1)
  {
    var first := line + "\r" + a;
    assert |first| == |line| + 1 + |a|;
    CutsShift(rest, |a|, |line|);
    CutsStep(first, rest, |line|, |line| + 2);
    CutsStep(a, rest, 0, 1);
    hide CutsWithin;
  }

  lemma CutsStep(first: string, rest: seq<string>, lo: nat, hi: nat)
    ensures CutsWithin([first] + rest, 0, lo, hi)
      <==> rest == [] || (lo < |first| <= hi && CutsWithin(rest, |first|, lo, hi))
  {
    assert ([first] + rest)[1..] == rest;
  }

  lemma ReadStep(p: Parse, first: string, rest: seq<string>, bodyLength: string -> int)
    ensures var v := Advance(p.(buffer := p.buffer + first), bodyLength);
      ReadPieces(p, [first] + rest, bodyLength)
      == if v.Blocked? then ReadPieces(v.p, rest, bodyLength) else if v.Ready? && rest == [] then Some(v.p) else None
  {
    assert ([first] + rest)[1..] == rest;
    hide Advance;
  }

  lemma ReadBehindLine(m: BenchMethod, target: string, v: Version, host: string,
                       a: string, rest: seq<string>, bodyLength: string -> int)
    requires Readable(m, target, host) && (rest != [] || a != "")
    ensures ReadPieces(Opened(""), [PrintLine(m, target, v) + "\r" + a] + rest, bodyLength)
         == ReadPieces(AtBlock(m, target, v), BlockPieces(a, rest), bodyLength)
  {
    var first := PrintLine(m, target, v) + "\r" + a;
    BehindLine(m, target, v, host, a, bodyLength);
    ReadStep(Opened(""), first, rest, bodyLength);
    ReadStep(AtBlock(m, target, v), a, rest, bodyLength);
    hide PrintLine, Advance, Readable, FileOf, ReadPieces;
    assert "" + first == first && "" + a == a;
  }

  /** A connection that has read the line of a printed request. */
  function AtBlock(m: BenchMethod, target: string, v: Version): Parse {
    Parse(StateParseHeaders, "", if m.BenchGet? then Get else Head, FileOf(target), v, Start, map[])
  }

  lemma PiecesBehindLine(m: BenchMethod, target: string, v: Version, host: string, keepAlive: bool,
                         a: string, rest: seq<string>, bodyLength: string -> int)
    requires Readable(m, target, host) && "" !in rest && a + Flatten(rest) == BlockOf(v, host, keepAlive)
    ensures var line := PrintLine(m, target, v);
      ReadPieces(Opened(""), [line + "\r" + a] + rest, bodyLength) == Some(Expected(m, target, v, host, keepAlive))
      <==> CutsWithin([line + "\r" + a] + rest, 0, |line|, |line| + 2)
  {
    hide *;
    var p, s := AtBlock(m, target, v), BlockOf(v, host, keepAlive);
    AtBlockReads(m, target, v, host, keepAlive);
    BlockStarts(v, host, keepAlive);
    assert s[..0] == "" && s[0..] == s;
    assert a == "" ==> Flatten(rest) == s;
    FlattenBlock(a, rest);
    ReadBehindLine(m, target, v, host, a, rest, bodyLength);
    CutsBehindLine(PrintLine(m, target, v), a, rest);
    BlockInPieces(p, v, host, keepAlive, 0, BlockPieces(a, rest), bodyLength);
  }

  lemma AtBlockReads(m: BenchMethod, target: string, v: Version, host: string, keepAlive: bool)
    requires Readable(m, target, host)
    ensures var p := AtBlock(m, target, v);
      && p.phase.StateParseHeaders? && !p.verb.Post? && p.h.Start? && p.headers == map[] && p.buffer == ""
      && BlockRead(p, v, host, keepAlive) == Expected(m, target, v, host, keepAlive)
    ensures GoodValue(host)
  {
    hide FileOf, FieldMap;
  }

  lemma FlattenBlock(a: string, rest: seq<string>)
    requires "" !in rest && a + Flatten(rest) != ""
    ensures Flatten(BlockPieces(a, rest)) == a + Flatten(rest)
    ensures "" !in BlockPieces(a, rest) && BlockPieces(a, rest) != [] && (rest != [] || a != "")
  {
    if a == "" {
      assert "" + Flatten(rest) == Flatten(rest);
    } else {
      FlattenFirst([a] + rest);
      assert ([a] + rest)[1..] == rest;
    }
  }

  lemma NoEarlyCut(pieces: seq<string>, line: nat)
    requires |pieces| > 1 && |pieces[0]| <= line
    ensures !CutsWithin(pieces, 0, line, line + 2)
  {
  }

  lemma BehindLine(m: BenchMethod, target: string, v: Version, host: string, a: string, bodyLength: string -> int)
    requires Readable(m, target, host)
    ensures var p := AtBlock(m, target, v).(buffer := a);
      && Advance(Opened(PrintLine(m, target, v) + "\r" + a), bodyLength) == Advance(p, bodyLength)
      && (a == "" ==> Advance(p, bodyLength) == Blocked(p))
  {
    LineRead(m, target, v, a, Get, "", Http11);
    hide ParseUri, FileOf, PrintLine, Contains, GoodTarget, GoodValue;
  }

  /** In however many pieces a printed request arrives, each seen by an event of its own: it is read exactly
      as it was sent if and only if every cut is in the line break behind the request line. */
  lemma PiecesAreReadIff(m: BenchMethod, target: string, v: Version, host: string, reload: bool, keepAlive: bool,
                         pieces: seq<string>, bodyLength: string -> int)
    requires Readable(m, target, host) && "" !in pieces
    requires Flatten(pieces) == Print(m, target, Some(v), Some(host), reload, keepAlive)
    ensures var line := |PrintLine(m, target, v)|;
      ReadPieces(Opened(""), pieces, bodyLength) == Some(Expected(m, target, v, host, keepAlive))
      <==> CutsWithin(pieces, 0, line, line + 2)
  {
    var line, s := PrintLine(m, target, v), BlockOf(v, host, keepAlive);
    PrintSplits(m, target, v, host, reload, keepAlive);
    NoCr(m, target, v);
    LineNotBlank(m, target, v);
    hide Print, PrintLine, BlockOf, Readable, FieldMap, FileOf, HasOddKey, ReadPieces, CutsWithin;
    assert Flatten([]) == "";
    FlattenFirst(pieces);
    hide Flatten;
    var piece, rest := pieces[0], pieces[1..];
    assert pieces == [piece] + rest && piece in pieces;
    CutText(line, s, piece, Flatten(rest));
    if |piece| <= |line| {
      NoOddKey(v, host, keepAlive);
      LineInPieces(piece, rest, Expected(m, target, v, host, keepAlive), bodyLength);
      NoEarlyCut(pieces, |line|);
    } else {
      PiecesBehindLine(m, target, v, host, keepAlive, s[..|piece| - |line| - 1], rest, bodyLength);
    }
  }

  lemma CutText(line: string, s: string, first: string, rest: string)
    requires first + rest == line + "\r" + s && CR !in line
    ensures |first| <= |line| ==> first == line[..|first|] && CR !in first && rest != ""
    ensures |first| > |line| ==>
      var k := |first| - |line| - 1; k <= |s| && first == line + "\r" + s[..k] && s[..k] + rest == s
  {
    var text := line + "\r" + s;
    assert first == text[..|first|] && rest == text[|first|..];
    if |first| <= |line| { assert text[..|first|] == line[..|first|]; }
  }

  // ---------------------------------------------------------------- pipelining

  /** A request behind another in the same read loses its first byte. */
  lemma NextLosesAByte(m: BenchMethod, target: string, v: Version, host: string, reload: bool, keepAlive: bool,
                       next: string)
    requires Readable(m, target, host) && next != ""
    ensures ReadRequest(Print(m, target, Some(v), Some(host), reload, keepAlive) + next)
         == Some(Request(if m.BenchGet? then Get else Head, FileOf(target), v, FieldMap(v, host, keepAlive), next[1..]))
  {
    var fs := RequestFields(v, Some(host), false, keepAlive);
    var line, s := PrintLine(m, target, v), BlockOf(v, host, keepAlive);
    PrintSplits(m, target, v, host, reload, keepAlive);
    Assoc(line + "\r", s, next);
    LineRead(m, target, v, s + next, Get, "", Http11);
    FieldsGood(v, host, keepAlive);
    BlockAccepted(map[], "\n", fs, next);
    FieldMapIs(v, host, keepAlive);
    hide Print, PrintLine, Block, RequestFields, FieldMap, FileOf, Scan, ParseUri, Contains, LastWins;
  }

  /** What is left of the line of a GET or HEAD without its first byte. */
  function Rump(m: BenchMethod, target: string, v: Version): string {
    Stub(m) + " " + target + " HTTP/" + VersionName(v)
  }

  function Stub(m: BenchMethod): string {
    MethodName(m)[1..]
  }

  lemma StubIs(m: BenchMethod)
    requires Direct(m)
    ensures Stub(m) == if m.BenchGet? then "ET" else "EAD"
  {
  }

  lemma RumpParts(m: BenchMethod, target: string, v: Version)
    ensures Rump(m, target, v) == (Stub(m) + " ") + target + (" HTTP/" + VersionName(v))
  {
    hide VersionName, Stub;
  }

  lemma NoVerbIn(m: BenchMethod, target: string, v: Version, word: string, front: char, back: char)
    requires Direct(m) && !Contains(target, word) && ' ' !in word
    requires front in word && front !in "ETAD" && back in word && back !in "HTP/1.0"
    ensures Search(Rump(m, target, v), word, 0).None?
  {
    var stub, tail := Stub(m), "HTTP/" + VersionName(v);
    StubIs(m);
    assert front !in stub && back !in tail;
    hide VersionName, Contains, Stub;
    NotContained(stub, word, front);
    NotContained(tail, word, back);
    WordInPart(stub, target, word);
    WordInPart(stub + [' '] + target, tail, word);
    assert stub + " " + target + " HTTP/" + VersionName(v) == (stub + [' '] + target) + [' '] + tail;
    SearchNone(Rump(m, target, v), word);
  }

  lemma SearchNone(s: string, word: string)
    requires !Contains(s, word)
    ensures Search(s, word, 0).None?
  {
    var at := Search(s, word, 0);
    assert at.Some? ==> Contains(s, word);
  }

  /** A word that cannot begin in what is put before a text is found where it is in the text. */
  lemma SearchShifts(pre: string, text: string, post: string, word: string)
    requires word != "" && word[0] !in pre && Search(text, word, 0).Some?
    ensures Search(pre + text + post, word, 0) == Some(|pre| + Search(text, word, 0).value)
  {
    var s, p := pre + text + post, Search(text, word, 0).value;
    hide Search, Occurs;
    assert s == pre + (text + post);
    OccursShifts(pre, text, post, word, p);
    forall j: nat | j < |pre| + p ensures !Occurs(s, word, j) {
      if j < |pre| { NotInFront(pre, text + post, word, j); } else { OccursShifts(pre, text, post, word, j - |pre|); }
    }
    FirstOccurs(s, word, |pre| + p);
  }

  lemma OccursShifts(pre: string, text: string, post: string, word: string, j: nat)
    requires j + |word| <= |text|
    ensures Occurs(pre + text + post, word, |pre| + j) <==> Occurs(text, word, j)
  {
    var s, n := pre + text + post, |word|;
    assert s[|pre| + j..|pre| + j + n] == text[j..j + n];
  }

  lemma NotInFront(pre: string, rest: string, word: string, j: nat)
    requires word != "" && word[0] !in pre && j < |pre|
    ensures !Occurs(pre + rest, word, j)
  {
    assert (pre + rest)[j] == pre[j] != word[0];
  }

  lemma FirstOccurs(s: string, word: string, at: nat)
    requires Occurs(s, word, at) && forall j: nat | j < at :: !Occurs(s, word, j)
    ensures Search(s, word, 0) == Some(at)
  {
    SearchIs(s, word, 0, at);
  }

  lemma WordInRump(m: BenchMethod, target: string, v: Version, word: string, front: char, back: char)
    requires Direct(m) && ' ' !in word && word != "" && word[0] !in "ETAD "
    requires front in word && front !in "ETAD" && back in word && back !in "HTP/1.0"
    ensures Search(Rump(m, target, v), word, 0) == Shifted(Search(target, word, 0), |Stub(m)| + 1)
  {
    hide *;
    ShiftedIs(Search(target, word, 0), |Stub(m)| + 1);
    if Search(target, word, 0).Some? {
      StubIs(m);
      assert word[0] !in Stub(m) + " ";
      RumpParts(m, target, v);
      SearchShifts(Stub(m) + " ", target, " HTTP/" + VersionName(v), word);
    } else {
      NotThere(target, word);
      NoVerbIn(m, target, v, word, front, back);
    }
  }

  function Shifted(at: Option<nat>, n: nat): Option<nat> {
    if at.Some? then Some(n + at.value) else None
  }

  lemma ShiftedIs(at: Option<nat>, n: nat)
    ensures Shifted(at, n) == if at.Some? then Some(n + at.value) else None
  {
  }

  lemma RumpVerb(m: BenchMethod, target: string, v: Version)
    requires Direct(m)
    ensures var f, at := FindMethod(Rump(m, target, v)), FindMethod(target);
      f == if at.None? then None else Some((at.value.0, |Stub(m)| + 1 + at.value.1))
    ensures FindMethod(target).Some? ==> FindMethod(target).value.1 <= |target|
  {
    hide *;
    assert "GET"[0] == 'G' && "POST"[0] == 'P' && "POST"[1] == 'O' && "HEAD"[0] == 'H' && "HEAD"[3] == 'D';
    WordInRump(m, target, v, "GET", 'G', 'G');
    WordInRump(m, target, v, "POST", 'O', 'O');
    WordInRump(m, target, v, "HEAD", 'H', 'D');
    MethodShifts(Rump(m, target, v), target, |Stub(m)| + 1);
  }

  lemma MethodShifts(line: string, target: string, n: nat)
    requires Search(line, "GET", 0) == Shifted(Search(target, "GET", 0), n)
    requires Search(line, "POST", 0) == Shifted(Search(target, "POST", 0), n)
    requires Search(line, "HEAD", 0) == Shifted(Search(target, "HEAD", 0), n)
    ensures var f, at := FindMethod(line), FindMethod(target);
      && f == (if at.None? then None else Some((at.value.0, n + at.value.1)))
      && (at.Some? ==> at.value.1 <= |target|)
  {
    SearchBound(target, "GET");
    SearchBound(target, "POST");
    SearchBound(target, "HEAD");
    hide Search, Occurs;
  }

  lemma SearchBound(s: string, word: string)
    ensures Search(s, word, 0).Some? ==> Search(s, word, 0).value <= |s|
  {
  }

  lemma NotThere(s: string, word: string)
    requires Search(s, word, 0).None?
    ensures !Contains(s, word)
  {
  }

  lemma SlashInRump(pre: string, target: string, ver: string, p: nat, q: nat)
    requires p <= q < |target| && target[q] == '/' && '/' !in target[p..q]
    ensures Search(pre + target + " HTTP/" + ver, "/", |pre| + p) == Some(|pre| + q)
  {
    hide Search;
    var a, b := pre + target[..q], target[q + 1..] + " HTTP/" + ver;
    assert a[|pre| + p..] == target[p..q];
    SearchSplit(a, '/', b, |pre| + p);
    assert target == target[..q] + ['/'] + target[q + 1..];
    assert pre + target + " HTTP/" + ver == a + ['/'] + b;
  }

  lemma SpaceInRump(pre: string, target: string, ver: string, q: nat)
    requires q <= |target| && ' ' !in target
    ensures Search(pre + target + " HTTP/" + ver, " ", |pre| + q) == Some(|pre| + |target|)
  {
    hide Search;
    var a := pre + target;
    assert a[|pre| + q..] == target[q..];
    SearchSplit(a, ' ', "HTTP/" + ver, |pre| + q);
    assert a + " HTTP/" + ver == a + [' '] + ("HTTP/" + ver);
  }

  /** Behind position p there is no slash in the target, so that of the version is the first. */
  lemma LastSlashInRump(pre: string, target: string, ver: string, p: nat)
    requires p <= |target| && '/' !in target[p..]
    ensures Search(pre + target + " HTTP/" + ver, "/", |pre| + p) == Some(|pre| + |target| + 5)
  {
    hide Search;
    var b := pre + target;
    var c := b + " HTTP";
    assert c[|pre| + p..] == target[p..] + " HTTP";
    SearchSplit(c, '/', ver, |pre| + p);
    assert b + " HTTP/" + ver == c + ['/'] + ver;
  }

  lemma NoSpaceBehind(pre: string, target: string, ver: string)
    requires ' ' !in ver
    ensures Search(pre + target + " HTTP/" + ver, " ", |pre| + |target| + 5).None?
  {
    hide Search;
    var c := pre + target + " HTTP";
    var line := c + ['/'] + ver;
    assert pre + target + " HTTP/" + ver == line;
    assert forall j | |c| <= j < |line| :: line[j] == (['/'] + ver)[j - |c|];
    NoCharFrom(line, ' ', |c|);
  }

  lemma RumpSlices(pre: string, target: string, ver: string, q: nat)
    requires q < |target| && |ver| == 3
    ensures var line, end := pre + target + " HTTP/" + ver, |pre| + |target|;
      && |line| == end + 9 && line[|pre| + q + 1..end] == target[q..][1..] && line[end + 6..end + 9] == ver
  {
    var line, a := pre + target + " HTTP/" + ver, pre + target;
    assert line[..|a|] == a && a[|pre|..] == target;
    assert line[|pre| + q + 1..|a|] == a[|pre| + q + 1..];
  }

  lemma RumpIs(m: BenchMethod, target: string, v: Version)
    requires Direct(m)
    ensures Rump(m, target, v) == Stub(m) + " " + target + " HTTP/" + VersionName(v)
    ensures |Rump(m, target, v)| >= 3 && Rump(m, target, v)[0] == 'E' && |VersionName(v)| == 3 && ' ' !in VersionName(v)
  {
    StubIs(m);
    VersionLength(v);
  }

  /** With a slash behind the verb, the rump has a target, from there on, and the version. */
  lemma RumpWithSlash(m: BenchMethod, target: string, v: Version, p: nat, q: nat, u: Uri)
    requires Direct(m) && p <= q < |target| && target[q] == '/' && '/' !in target[p..q] && ' ' !in target
    ensures |Rump(m, target, v)| >= 3
    ensures ParseTarget(Rump(m, target, v), |Stub(m)| + 1 + p, u)
         == u.(ok := true, file := FileOf(target[q..]), version := v)
  {
    hide *;
    var line, n := Rump(m, target, v), |Stub(m)| + 1;
    RumpIs(m, target, v);
    RumpFacts(line, Stub(m) + " ", target, VersionName(v), p, q);
    SearchesParse(line, n + p, n + q, n + |target|, target[q..], v, u);
  }

  lemma RumpFacts(line: string, pre: string, target: string, ver: string, p: nat, q: nat)
    requires line == pre + target + " HTTP/" + ver && |ver| == 3
    requires p <= q < |target| && target[q] == '/' && '/' !in target[p..q] && ' ' !in target
    ensures var end := |pre| + |target|;
      && Search(line, "/", |pre| + p) == Some(|pre| + q) && Search(line, " ", |pre| + q) == Some(end)
      && Search(line, "/", end) == Some(end + 5)
      && |line| == end + 9 && line[|pre| + q + 1..end] == target[q..][1..] && line[end + 6..end + 9] == ver
  {
    hide Search;
    SlashInRump(pre, target, ver, p, q);
    SpaceInRump(pre, target, ver, q);
    LastSlashInRump(pre, target, ver, |target|);
    RumpSlices(pre, target, ver, q);
  }

  lemma SearchesParse(line: string, from: nat, start: nat, end: nat, target: string, v: Version, u: Uri)
    requires Search(line, "/", from) == Some(start) && Search(line, " ", start) == Some(end)
    requires Search(line, "/", end) == Some(end + 5)
    requires target != "" && end == start + |target| && |line| == end + 9
    requires line[start + 1..end] == target[1..] && line[end + 6..end + 9] == VersionName(v)
    ensures ParseTarget(line, from, u) == u.(ok := true, file := FileOf(target), version := v)
  {
    VersionLength(v);
    hide Search, UpTo, VersionName, ParseVersion;
  }

  /** Without one, the slash of the version is taken for the target's, and there is no version. */
  lemma RumpWithoutSlash(m: BenchMethod, target: string, v: Version, p: nat, u: Uri)
    requires Direct(m) && GoodTarget(target) && p <= |target| && '/' !in target[p..]
    ensures |Rump(m, target, v)| >= 3
    ensures !ParseTarget(Rump(m, target, v), |Stub(m)| + 1 + p, u).ok
  {
    var pre, ver := Stub(m) + " ", VersionName(v);
    RumpIs(m, target, v);
    hide VersionName, Search, Stub, Rump, ParseTarget;
    LastSlashInRump(pre, target, ver, p);
    NoSpaceBehind(pre, target, ver);
    NoVersion(Rump(m, target, v), |pre| + p, |pre| + |target| + 5, u);
  }

  lemma NoCharFrom(s: string, ch: char, from: nat)
    requires from <= |s| && forall j | from <= j < |s| :: s[j] != ch
    ensures Search(s, [ch], from).None?
  {
    forall j: nat | from <= j < |s| ensures !Occurs(s, [ch], j) {
      assert s[j..j + 1][0] == s[j];
    }
  }

  lemma NoVersion(line: string, from: nat, start: nat, u: Uri)
    requires |line| >= 3 && line[0] == 'E'
    requires Search(line, "/", from) == Some(start) && Search(line, " ", start).None?
    ensures !ParseTarget(line, from, u).ok
  {
    assert line[..3][0] == 'E' && "1.0"[0] == "1.1"[0] == '1';
    hide Search, FileName;
  }

  /** What ParseURI makes of a target that has lost its verb: the verb it spells, if any, and what is named
      from the first slash behind that. */
  function Garbled(target: string): Option<(Method, string)> {
    var at := FindMethod(target);
    if at.None? then None
    else
      var slash := Search(target, "/", at.value.1);
      if slash.None? || slash.value > |target| then None else Some((at.value.0, FileOf(target[slash.value..])))
  }

  lemma GarbledIs(target: string)
    ensures var at := FindMethod(target);
      Garbled(target) ==
      if at.None? then None
      else
        var slash := Search(target, "/", at.value.1);
        if slash.None? || slash.value > |target| then None else Some((at.value.0, FileOf(target[slash.value..])))
  {
    hide Search, FileOf, FindMethod;
  }

  lemma SlashBehind(target: string, p: nat)
    requires p <= |target|
    ensures var slash := Search(target, "/", p);
      if slash.Some? then p <= slash.value < |target| && target[slash.value] == '/' && '/' !in target[p..slash.value]
      else '/' !in target[p..]
  {
    var slash := Search(target, "/", p);
    forall j | p <= j < |target| && (slash.None? || j < slash.value) ensures target[j] != '/' {
      if target[j] == '/' { assert target[j..j + 1] == "/" && Occurs(target, "/", j); }
    }
    if slash.Some? { assert target[slash.value..slash.value + 1][0] == '/'; }
  }

  /** The line of a request behind another in the same read. */
  lemma NextLineIs(m: BenchMethod, target: string, v: Version, rest: string)
    requires Direct(m) && GoodTarget(target)
    ensures var u := ParseUri((PrintLine(m, target, v) + "\r" + rest)[1..], Get, "", Http11);
      match Garbled(target)
      case None => !u.ok
      case Some(vf) => u == Uri(true, rest, vf.0, vf.1, v)
  {
    assert ' ' !in target;
    hide *;
    RumpLine(m, target, v, rest);
    RumpVerb(m, target, v);
    LineOf(Rump(m, target, v), rest);
    GarbledIs(target);
    var at := FindMethod(target);
    if at.Some? {
      var p, u := at.value.1, Uri(true, rest, at.value.0, "", Http11);
      SlashBehind(target, p);
      var slash := Search(target, "/", p);
      if slash.Some? { RumpWithSlash(m, target, v, p, slash.value, u); } else { RumpWithoutSlash(m, target, v, p, u); }
    }
  }

  /** ParseURI, once the line is taken out. */
  lemma LineOf(line: string, rest: string)
    requires CR !in line && |line| >= 3
    ensures var f := FindMethod(line);
      ParseUri(line + [CR] + rest, Get, "", Http11)
      == if f.None? then Uri(false, rest, Get, "", Http11)
         else ParseTarget(line, f.value.1, Uri(true, rest, f.value.0, "", Http11))
  {
    var text := line + [CR] + rest;
    SearchSplit(line, CR, rest, 0);
    assert text[..|line|] == line && text[|line| + 1..] == rest;
    hide Search, FindMethod, ParseTarget;
  }

  lemma RumpLine(m: BenchMethod, target: string, v: Version, rest: string)
    requires Direct(m) && GoodTarget(target)
    ensures CR !in Rump(m, target, v) && |Rump(m, target, v)| >= 3
    ensures (PrintLine(m, target, v) + "\r" + rest)[1..] == Rump(m, target, v) + [CR] + rest
  {
    NoCr(m, target, v);
    RumpIs(m, target, v);
    hide *;
    var rump := Rump(m, target, v);
    var c := LineIsRump(m, target, v);
    assert forall j | 0 <= j < |rump| :: rump[j] == PrintLine(m, target, v)[j + 1];
    assert PrintLine(m, target, v) + "\r" + rest == [c] + (rump + [CR] + rest);
  }

  lemma LineIsRump(m: BenchMethod, target: string, v: Version) returns (c: char)
    ensures PrintLine(m, target, v) == [c] + Rump(m, target, v)
  {
    c := MethodName(m)[0];
    FirstOff(MethodName(m), " ", target, " HTTP/", VersionName(v));
    hide VersionName, MethodName;
  }

  lemma FirstOff(name: string, a: string, b: string, c: string, d: string)
    requires name != ""
    ensures name + a + b + c + d == [name[0]] + (name[1..] + a + b + c + d)
  {
    assert name == [name[0]] + name[1..];
  }

  /** A printed request behind another in the same read is refused, unless its target spells a verb with a
      slash behind it; then the request read has that verb and the rest of the target, and the version and
      headers sent. */
  lemma NextRequestIs(m: BenchMethod, target: string, v: Version, host: string, reload: bool, keepAlive: bool)
    requires Direct(m) && GoodTarget(target) && GoodValue(host)
    ensures var next := Print(m, target, Some(v), Some(host), reload, keepAlive);
      next != "" && ReadRequest(next[1..]) == match Garbled(target)
        case None => None
        case Some(vf) => Some(Request(vf.0, vf.1, v, FieldMap(v, host, keepAlive), ""))
  {
    PrintSplits(m, target, v, host, reload, keepAlive);
    NextLineIs(m, target, v, BlockOf(v, host, keepAlive));
    HeadersRead(v, host, keepAlive);
    hide Print, PrintLine, Block, RequestFields, FieldMap, Scan, ParseUri, Garbled;
  }

  /** So is one whose target spells POST, for want of a length. */
  lemma NextAdvances(m: BenchMethod, target: string, v: Version, host: string, reload: bool, keepAlive: bool,
                     bodyLength: string -> int)
    requires Direct(m) && GoodTarget(target) && GoodValue(host)
    ensures var next := Print(m, target, Some(v), Some(host), reload, keepAlive);
      next != "" && match Garbled(target)
        case None => Advance(Opened(next[1..]), bodyLength).Refused?
        case Some(vf) =>
          if vf.0.Post? then Advance(Opened(next[1..]), bodyLength).Refused?
          else Advance(Opened(next[1..]), bodyLength)
               == Ready(Parse(StateAnalysis, "", vf.0, vf.1, v, EndLf, FieldMap(v, host, keepAlive)))
  {
    PrintSplits(m, target, v, host, reload, keepAlive);
    NextLineIs(m, target, v, BlockOf(v, host, keepAlive));
    HeadersRead(v, host, keepAlive);
    NoLength(v, host, keepAlive);
    hide Print, PrintLine, Block, RequestFields, FieldMap, Scan, ParseUri, Garbled;
  }

  lemma NoLength(v: Version, host: string, keepAlive: bool)
    ensures "Content-length" !in FieldMap(v, host, keepAlive)
  {
    var name := "Content-length";
    assert |name| != |"User-Agent"| && |name| != |"Host"| && |name| != |"Connection"|;
  }
}
