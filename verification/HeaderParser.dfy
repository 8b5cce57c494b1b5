/** The header automaton of `HttpData::ParseHeaders`, and the exact language it accepts.

    The code walks the buffer with five indices that are -1 until set and are not kept from one call
    to the next. Here the indices are replaced by the text they delimit; None is an index still at -1. */
module HeaderParser {
  import opened Sequences

  const CR := '\r'
  const LF := '\n'
  const MAX_VALUE := 256

  type Headers = map<string, string>

  datatype ParseState = Start | Key | Colon | Spaces | Value | Cr | Lf | EndCr | EndLf

  datatype Cursor = Cursor(
    h: ParseState,
    key: Option<string>,    // from key_start on, while in the key; then up to key_end
    value: Option<string>,  // from value_start on; likewise
    length: nat,            // i - value_start
    line: string,           // from now_read_line_begin on
    headers: Headers)

  datatype Step = Go(c: Cursor) | Stop | Fail | Undef

  datatype Outcome =
    | Success(headers: Headers, rest: string)
    | Again(c: Cursor)
    | Error(c: Cursor)
    | Undefined  // a string is built from an index that was never set

  /** The state of a call when its loop begins. */
  function Fresh(h: ParseState, headers: Headers): Cursor {
    Cursor(h, None, None, 1, "", headers)
  }

  function Push(text: Option<string>, ch: char): Option<string> {
    if text.Some? then Some(text.value + [ch]) else None
  }

  /** One turn of the switch. */
  function Feed(c: Cursor, ch: char): Step {
    var more := c.(line := c.line + [ch]);
    match c.h
    case Start =>
      if ch == LF || ch == CR then Go(more) else Go(c.(h := Key, key := Some([ch]), line := [ch]))
    case Key =>
      if ch == ':' then (if c.key == Some("") then Fail else Go(more.(h := Colon)))
      else if ch == LF || ch == CR then Fail
      else Go(more.(key := Push(c.key, ch)))
    case Colon => if ch == ' ' then Go(more.(h := Spaces)) else Fail
    case Spaces => Go(more.(h := Value, value := Some([ch]), length := 1))
    case Value =>
      if ch == CR then (if c.length == 0 then Fail else Go(more.(h := Cr)))
      else if c.length > 255 then Fail
      else Go(more.(value := Push(c.value, ch), length := c.length + 1))
    case Cr =>
      if ch != LF then Fail
      else if c.key.None? || c.value.None? then Undef
      else Go(c.(h := Lf, headers := c.headers[c.key.value := c.value.value], line := [LF]))
    case Lf => if ch == CR then Go(more.(h := EndCr)) else Go(more.(h := Key, key := Some([ch])))
    case EndCr => if ch == LF then Go(more.(h := EndLf)) else Fail
    case EndLf => Stop
  }

  /** The whole call. A byte behind the empty line is consumed with it. */
  function Scan(c: Cursor, s: string): Outcome
    decreases |s|
  {
    if s == "" then (if c.h.EndLf? then Success(c.headers, "") else Again(c))
    else match Feed(c, s[0])
      case Go(c') => Scan(c', s[1..])
      case Stop => Success(c.headers, s[1..])
      case Fail => Error(c)
      case Undef => Undefined
  }

  /** The same walk without the end of the call. */
  function Drive(c: Cursor, s: string): Step
    decreases |s|
  {
    if s == "" then Go(c)
    else match Feed(c, s[0])
      case Go(c') => Drive(c', s[1..])
      case other => other
  }

  lemma {:induction false} ScanAfter(c: Cursor, s: string, t: string)
    requires Drive(c, s).Go?
    ensures Scan(c, s + t) == Scan(Drive(c, s).c, t)
    decreases |s|
  {
    if s == "" {
      assert s + t == t;
    } else {
      ScanAfter(Feed(c, s[0]).c, s[1..], t);
      assert (s + t)[1..] == s[1..] + t;
    }
  }

  lemma {:induction false} DriveAfter(c: Cursor, s: string, t: string)
    requires Drive(c, s).Go?
    ensures Drive(c, s + t) == Drive(Drive(c, s).c, t)
    decreases |s|
  {
    if s == "" {
      assert s + t == t;
    } else {
      DriveAfter(Feed(c, s[0]).c, s[1..], t);
      assert (s + t)[1..] == s[1..] + t;
    }
  }

  lemma {:induction false} ErrorStays(c: Cursor, s: string, t: string)
    requires Scan(c, s).Error?
    ensures Scan(c, s + t) == Scan(c, s)
    decreases |s|
  {
    assert (s + t)[1..] == s[1..] + t;
    if Feed(c, s[0]).Go? { ErrorStays(Feed(c, s[0]).c, s[1..], t); }
  }

  // ---------------------------------------------------------------- the language

  datatype Field = Field(key: string, value: string)

  predicate Blank(s: string) {
    forall i | 0 <= i < |s| :: s[i] == CR || s[i] == LF
  }

  predicate KeyTail(s: string) {
    forall i | 0 <= i < |s| :: s[i] != ':' && s[i] != CR && s[i] != LF
  }

  /** The first character of a name is hardly checked; that of the first name is not a line break,
      that of a later one is not a CR. */
  predicate GoodKey(k: string, first: bool) {
    k != "" && k[0] != CR && (first ==> k[0] != LF) && KeyTail(k[1..])
  }

  predicate GoodValue(v: string) {
    1 <= |v| <= MAX_VALUE && CR !in v[1..]
  }

  predicate GoodFields(fs: seq<Field>) {
    forall i | 0 <= i < |fs| :: GoodKey(fs[i].key, i == 0) && GoodValue(fs[i].value)
  }

  function Line(f: Field): string {
    f.key + ": " + f.value + "\r\n"
  }

  function Lines(fs: seq<Field>): string {
    if fs == [] then "" else Lines(fs[..|fs|-1]) + Line(fs[|fs|-1])
  }

  /** A header block: line breaks, one or more fields, an empty line. */
  function Block(blank: string, fs: seq<Field>): string {
    blank + Lines(fs) + "\r\n"
  }

  predicate GoodBlock(blank: string, fs: seq<Field>) {
    Blank(blank) && fs != [] && GoodFields(fs)
  }

  function LastWins(fs: seq<Field>, headers: Headers): Headers {
    if fs == [] then headers
    else LastWins(fs[..|fs|-1], headers)[fs[|fs|-1].key := fs[|fs|-1].value]
  }

  ghost predicate HasBlock(s: string) {
    exists blank, fs :: GoodBlock(blank, fs) && Block(blank, fs) <= s
  }

  ghost predicate Viable(s: string) {
    exists blank, fs :: GoodBlock(blank, fs) && s <= Block(blank, fs)
  }

  // ---------------------------------------------------------------- every block is accepted

  lemma {:induction false} DriveBlank(c: Cursor, s: string)
    requires c.h.Start? && Blank(s)
    ensures Drive(c, s) == Go(c.(line := c.line + s))
    decreases |s|
  {
    if s == "" {
      assert c.line + s == c.line;
    } else {
      DriveBlank(Feed(c, s[0]).c, s[1..]);
      assert c.line + [s[0]] + s[1..] == c.line + s;
    }
  }

  lemma {:induction false} DriveKey(c: Cursor, s: string)
    requires c.h.Key? && c.key.Some? && KeyTail(s)
    ensures Drive(c, s) == Go(c.(key := Some(c.key.value + s), line := c.line + s))
    decreases |s|
  {
    if s == "" {
      assert c.line + s == c.line && c.key.value + s == c.key.value;
    } else {
      DriveKey(Feed(c, s[0]).c, s[1..]);
      assert c.line + [s[0]] + s[1..] == c.line + s;
      assert c.key.value + [s[0]] + s[1..] == c.key.value + s;
    }
  }

  lemma {:induction false} DriveValue(c: Cursor, s: string)
    requires c.h.Value? && c.value.Some? && CR !in s && c.length + |s| <= MAX_VALUE
    ensures Drive(c, s) == Go(c.(value := Some(c.value.value + s), length := c.length + |s|, line := c.line + s))
    decreases |s|
  {
    if s == "" {
      assert c.line + s == c.line && c.value.value + s == c.value.value;
    } else {
      DriveValue(Feed(c, s[0]).c, s[1..]);
      assert c.line + [s[0]] + s[1..] == c.line + s;
      assert c.value.value + [s[0]] + s[1..] == c.value.value + s;
    }
  }

  /** The cursor after a whole field line. */
  function AfterField(c: Cursor, f: Field): Cursor {
    Cursor(Lf, Some(f.key), Some(f.value), |f.value|, [LF], c.headers[f.key := f.value])
  }

  lemma DriveName(c: Cursor, k: string)
    requires (c.h.Start? && GoodKey(k, true)) || (c.h.Lf? && GoodKey(k, false))
    ensures Drive(c, k + ": ").Go?
    ensures var d := Drive(c, k + ": ").c; d.h.Spaces? && d.key == Some(k) && d.headers == c.headers
  {
    var c1 := Drive1(c, k[..1]);
    DriveKey(c1, k[1..]);
    assert k == k[..1] + k[1..] && k[..1] == [k[0]];
    DriveAfter(c, k[..1], k[1..]);
    var c2 := Drive(c, k).c;
    var c3 := Drive1(c2, ":");
    var c4 := Drive1(c3, " ");
    DriveAfter(c2, ":", " ");
    DriveAfter(c, k, ": ");
    assert ": " == ":" + " ";
  }

  lemma DriveText(c: Cursor, v: string)
    requires c.h.Spaces? && c.key.Some? && GoodValue(v)
    ensures Drive(c, v + "\r\n")
         == Go(Cursor(Lf, c.key, Some(v), |v|, [LF], c.headers[c.key.value := v]))
  {
    var c1 := Drive1(c, v[..1]);
    DriveValue(c1, v[1..]);
    assert v == v[..1] + v[1..] && v[..1] == [v[0]];
    DriveAfter(c, v[..1], v[1..]);
    DriveBreak(Drive(c, v).c);
    DriveAfter(c, v, "\r\n");
  }

  lemma DriveBreak(c: Cursor)
    requires c.h.Value? && c.length > 0 && c.key.Some? && c.value.Some?
    ensures Drive(c, "\r\n") == Go(c.(h := Lf, line := [LF], headers := c.headers[c.key.value := c.value.value]))
  {
    var c1 := Drive1(c, [CR]);
    var c2 := Drive1(c1, [LF]);
    DriveAfter(c, [CR], [LF]);
    assert "\r\n" == [CR] + [LF];
  }

  lemma DriveField(c: Cursor, f: Field)
    requires (c.h.Start? && GoodKey(f.key, true)) || (c.h.Lf? && GoodKey(f.key, false))
    requires GoodValue(f.value)
    ensures Drive(c, Line(f)) == Go(AfterField(c, f))
  {
    DriveName(c, f.key);
    var d := Drive(c, f.key + ": ").c;
    DriveText(d, f.value);
    DriveAfter(c, f.key + ": ", f.value + "\r\n");
    assert Line(f) == (f.key + ": ") + (f.value + "\r\n");
  }

  lemma Drive1(c: Cursor, s: string) returns (c': Cursor)
    requires |s| == 1 && Feed(c, s[0]).Go?
    ensures Drive(c, s) == Go(c') && Feed(c, s[0]) == Go(c')
  {
    c' := Feed(c, s[0]).c;
    assert s[1..] == "";
  }

  lemma {:induction false} DriveFields(c: Cursor, fs: seq<Field>)
    requires c.h.Start? && fs != [] && GoodFields(fs)
    ensures Drive(c, Lines(fs)).Go?
    ensures var d := Drive(c, Lines(fs)).c; d.h.Lf? && d.headers == LastWins(fs, c.headers)
    decreases |fs|
  {
    var init, f := fs[..|fs|-1], fs[|fs|-1];
    if init == [] {
      assert Lines(fs) == "" + Line(f) == Line(f);
      DriveField(c, f);
    } else {
      DriveFields(c, init);
      DriveField(Drive(c, Lines(init)).c, f);
      DriveAfter(c, Lines(init), Line(f));
    }
  }

  /** On a block, whatever follows it, the call succeeds with exactly the block's fields; of what
      follows, one byte is lost. */
  lemma BlockAccepted(headers: Headers, blank: string, fs: seq<Field>, tail: string)
    requires GoodBlock(blank, fs)
    ensures Scan(Fresh(Start, headers), Block(blank, fs) + tail)
         == Success(LastWins(fs, headers), if tail == "" then "" else tail[1..])
  {
    var c := Fresh(Start, headers);
    DriveBlank(c, blank);
    var c1 := Drive(c, blank).c;
    DriveFields(c1, fs);
    DriveAfter(c, blank, Lines(fs));
    ScanAfter(c, blank + Lines(fs), "\r\n" + tail);
    assert Block(blank, fs) + tail == (blank + Lines(fs)) + ("\r\n" + tail);
    ScanEnd(Drive(c1, Lines(fs)).c, tail);
  }

  lemma ScanDone(c: Cursor, tail: string)
    requires c.h.EndLf?
    ensures Scan(c, tail) == Success(c.headers, if tail == "" then "" else tail[1..])
  {
  }

  lemma DriveEnd(c: Cursor) returns (d: Cursor)
    requires c.h.Lf?
    ensures Drive(c, "\r\n") == Go(d) && d.h.EndLf? && d.headers == c.headers
  {
    var c1 := Drive1(c, [CR]);
    d := Drive1(c1, [LF]);
    DriveAfter(c, [CR], [LF]);
    assert "\r\n" == [CR] + [LF];
  }

  lemma ScanEnd(c: Cursor, tail: string)
    requires c.h.Lf?
    ensures Scan(c, "\r\n" + tail) == Success(c.headers, if tail == "" then "" else tail[1..])
  {
    hide Scan, Drive;
    var d := DriveEnd(c);
    ScanAfter(c, "\r\n", tail);
    ScanDone(d, tail);
  }

  // ---------------------------------------------------------------- nothing else is accepted

  predicate InField(h: ParseState) {
    h.Key? || h.Colon? || h.Spaces? || h.Value? || h.Cr?
  }

  /** What has been read since the last complete field line. */
  function Partial(c: Cursor): string {
    var key := if c.key.Some? then c.key.value else "";
    var value := if c.value.Some? then c.value.value else "";
    match c.h
    case Start => ""
    case Key => key
    case Colon => key + ":"
    case Spaces => key + ": "
    case Value => key + ": " + value
    case Cr => key + ": " + value + "\r"
    case Lf => ""
    case EndCr => "\r"
    case EndLf => "\r\n"
  }

  /** The cursor is where reading `seen` from the start leads: line breaks, complete fields, a part. */
  ghost predicate Describes(c: Cursor, seen: string, blank: string, done: seq<Field>, headers: Headers) {
    && Blank(blank) && GoodFields(done)
    && c.headers == LastWins(done, headers)
    && seen == blank + Lines(done) + Partial(c)
    && (c.h.Start? ==> done == [] && c.line == seen)
    && (InField(c.h) ==> c.key.Some? && GoodKey(c.key.value, done == []))
    && (c.h.Value? || c.h.Cr? ==> c.value.Some? && GoodValue(c.value.value) && c.length == |c.value.value|)
    && (c.h.Lf? ==> done != [] && c.line == [LF])
    && (c.h.EndCr? ==> done != [] && c.line == [LF, CR])
    && (c.h.EndLf? ==> done != [])
  }

  lemma GoodFieldsPush(fs: seq<Field>, f: Field)
    requires GoodFields(fs) && GoodKey(f.key, fs == []) && GoodValue(f.value)
    ensures GoodFields(fs + [f]) && Lines(fs + [f]) == Lines(fs) + Line(f)
    ensures forall headers :: LastWins(fs + [f], headers) == LastWins(fs, headers)[f.key := f.value]
  {
    assert (fs + [f])[..|fs|] == fs;
  }

  lemma FieldDone(c: Cursor, seen: string, blank: string, done: seq<Field>, headers: Headers)
    returns (done': seq<Field>)
    requires Describes(c, seen, blank, done, headers) && c.h.Cr?
    ensures Feed(c, LF).Go? && Describes(Feed(c, LF).c, seen + [LF], blank, done', headers)
  {
    var f := Field(c.key.value, c.value.value);
    done' := done + [f];
    GoodFieldsPush(done, f);
    assert Line(f) == Partial(c) + [LF];
    assert seen + [LF] == blank + (Lines(done) + (Partial(c) + [LF]));
    assert Partial(Feed(c, LF).c) == "";
    assert seen + [LF] == blank + Lines(done') + "";
  }

  lemma KeyGrows(k: string, ch: char, first: bool)
    requires GoodKey(k, first) && ch != ':' && ch != CR && ch != LF
    ensures GoodKey(k + [ch], first)
  {
    assert (k + [ch])[1..] == k[1..] + [ch];
  }

  lemma ValueGrows(v: string, ch: char)
    requires GoodValue(v) && ch != CR && |v| <= 255
    ensures GoodValue(v + [ch])
  {
    assert (v + [ch])[1..] == v[1..] + [ch];
  }

  lemma StepDescribes(c: Cursor, seen: string, blank: string, done: seq<Field>, headers: Headers, ch: char)
    returns (blank': string, done': seq<Field>)
    requires Describes(c, seen, blank, done, headers) && Feed(c, ch).Go?
    ensures Describes(Feed(c, ch).c, seen + [ch], blank', done', headers)
  {
    blank', done' := blank, done;
    var c', before := Feed(c, ch).c, blank + Lines(done);
    match c.h {
      case Start =>
        if ch == LF || ch == CR {
          blank' := blank + [ch];
          assert seen + [ch] == blank' + Lines(done) + "";
        } else {
          assert seen + [ch] == before + [ch];
        }
      case Key =>
        if ch != ':' { KeyGrows(c.key.value, ch, done == []); }
        assert Partial(c') == Partial(c) + [ch];
        Assoc(before, Partial(c), [ch]);
      case Value =>
        if ch != CR { ValueGrows(c.value.value, ch); }
        assert Partial(c') == Partial(c) + [ch];
        Assoc(before, Partial(c), [ch]);
      case Cr =>
        done' := FieldDone(c, seen, blank, done, headers);
      case EndLf =>
      case _ =>
        assert Partial(c') == Partial(c) + [ch];
        Assoc(before, Partial(c), [ch]);
    }
  }

  /** What would complete the block from here. */
  function Completion(c: Cursor): string {
    match c.h
    case Start => "a: b\r\n\r\n"
    case Key => ": b\r\n\r\n"
    case Colon => " b\r\n\r\n"
    case Spaces => "b\r\n\r\n"
    case Value => "\r\n\r\n"
    case Cr => "\n\r\n"
    case Lf => "\r\n"
    case EndCr => "\n"
    case EndLf => ""
  }

  lemma CompletesField(c: Cursor, first: bool) returns (f: Field)
    requires c.h.Start? || InField(c.h)
    requires InField(c.h) ==> c.key.Some? && GoodKey(c.key.value, first)
    requires c.h.Value? || c.h.Cr? ==> c.value.Some? && GoodValue(c.value.value)
    ensures GoodKey(f.key, first) && GoodValue(f.value) && Partial(c) + Completion(c) == Line(f) + "\r\n"
  {
    match c.h {
      case Start => f := Field("a", "b");
      case Value => f := Field(c.key.value, c.value.value);
      case Cr => f := Field(c.key.value, c.value.value);
      case _ => f := Field(c.key.value, "b");
    }
  }

  lemma LineCompletes(before: string, part: string, ext: string, blank: string, lines: string, line: string)
    requires before == blank + lines && part + ext == line + "\r\n"
    ensures before + part + ext == blank + (lines + line) + "\r\n"
  {
    Assoc(before, part, ext);
    Assoc(before, line, "\r\n");
    Assoc(blank, lines, line);
  }

  lemma Completes(c: Cursor, seen: string, blank: string, done: seq<Field>, headers: Headers)
    returns (fs: seq<Field>)
    requires Describes(c, seen, blank, done, headers)
    ensures GoodBlock(blank, fs) && seen + Completion(c) == Block(blank, fs)
  {
    fs := done;
    if c.h.Start? || InField(c.h) {
      var f := CompletesField(c, done == []);
      fs := done + [f];
      GoodFieldsPush(done, f);
      LineCompletes(blank + Lines(done), Partial(c), Completion(c), blank, Lines(done), Line(f));
    } else {
      LineCompletes(blank + Lines(done), Partial(c), Completion(c), blank, Lines(done), "");
      assert Lines(done) + "" == Lines(done);
    }
  }

  lemma {:induction false} ScanSound(c: Cursor, seen: string, s: string, blank: string, done: seq<Field>,
                                     headers: Headers)
    returns (c': Cursor, blank': string, done': seq<Field>)
    requires Describes(c, seen, blank, done, headers)
    ensures !Scan(c, s).Undefined?
    ensures Scan(c, s).Success? ==> HasBlock(seen + s)
    ensures Scan(c, s).Again? ==>
      Scan(c, s).c == c' && !c'.h.EndLf? && Describes(c', seen + s, blank', done', headers)
    decreases |s|
  {
    c', blank', done' := c, blank, done;
    if s == "" {
      assert seen + s == seen;
      if c.h.EndLf? { assert Block(blank, done) <= seen + s; }
    } else {
      match Feed(c, s[0])
      case Go(next) =>
        var b, d := StepDescribes(c, seen, blank, done, headers, s[0]);
        c', blank', done' := ScanSound(next, seen + [s[0]], s[1..], b, d, headers);
        assert seen + [s[0]] + s[1..] == seen + s;
      case Stop => assert Block(blank, done) <= seen + s;
      case _ =>
    }
  }

  lemma PrefixAccepted(s: string, headers: Headers, blank: string, fs: seq<Field>)
    requires GoodBlock(blank, fs) && Block(blank, fs) <= s
    ensures var tail := s[|Block(blank, fs)|..];
      Scan(Fresh(Start, headers), s) == Success(LastWins(fs, headers), if tail == "" then "" else tail[1..])
  {
    BlockAccepted(headers, blank, fs, s[|Block(blank, fs)|..]);
    assert s == Block(blank, fs) + s[|Block(blank, fs)|..];
  }

  lemma ErrorNotViable(s: string, headers: Headers)
    requires Scan(Fresh(Start, headers), s).Error?
    ensures !Viable(s)
  {
    if Viable(s) {
      var b, fs :| GoodBlock(b, fs) && s <= Block(b, fs);
      ErrorStays(Fresh(Start, headers), s, Block(b, fs)[|s|..]);
      assert s + Block(b, fs)[|s|..] == Block(b, fs);
      PrefixAccepted(Block(b, fs), headers, b, fs);
    }
  }

  /** The exact language of one call from the start state, for every input. Success: a block is a
      prefix. Again: none is, but the input begins one. Error: neither. And on success the result is
      that block's last-wins map, with one byte of what follows lost. */
  lemma ExactLanguage(s: string, headers: Headers)
    ensures var r := Scan(Fresh(Start, headers), s);
      && (r.Success? <==> HasBlock(s))
      && (r.Again? <==> !HasBlock(s) && Viable(s))
      && (r.Error? <==> !HasBlock(s) && !Viable(s))
      && !r.Undefined?
    ensures forall blank, fs | GoodBlock(blank, fs) && Block(blank, fs) <= s ::
      var tail := s[|Block(blank, fs)|..];
      Scan(Fresh(Start, headers), s) == Success(LastWins(fs, headers), if tail == "" then "" else tail[1..])
  {
    var c := Fresh(Start, headers);
    assert Describes(c, "", "", [], headers);
    var d, blank, done := ScanSound(c, "", s, "", [], headers);
    assert "" + s == s;
    hide Scan, Describes, GoodBlock, Block;
    forall blank, fs | GoodBlock(blank, fs) && Block(blank, fs) <= s
      ensures var tail := s[|Block(blank, fs)|..];
        Scan(c, s) == Success(LastWins(fs, headers), if tail == "" then "" else tail[1..])
    {
      PrefixAccepted(s, headers, blank, fs);
    }
    if Scan(c, s).Again? {
      var fs := Completes(d, s, blank, done, headers);
      assert s <= Block(blank, fs);
    }
    if Scan(c, s).Error? {
      ErrorNotViable(s, headers);
    }
  }

  // ---------------------------------------------------------------- input in two pieces

  /** Two calls: the second sees what the first left in the buffer, then the rest of the input. */
  function Resume(first: Outcome, rest: string): Outcome
    requires first.Again?
  {
    Scan(Fresh(first.c.h, first.c.headers), first.c.line + rest)
  }

  /** Inside a field line, a second call cannot succeed: its key was never marked. */
  lemma {:induction false} UnmarkedKeyNeverSucceeds(c: Cursor, s: string)
    requires InField(c.h) && c.key.None?
    ensures !Scan(c, s).Success?
    decreases |s|
  {
    if s != "" && Feed(c, s[0]).Go? { UnmarkedKeyNeverSucceeds(Feed(c, s[0]).c, s[1..]); }
  }

  /** When may a header block arrive in two pieces? The two calls agree with one call on the whole,
      for every continuation, exactly if the first piece is nothing but line breaks. */
  lemma SplitSafeIff(a: string, headers: Headers)
    requires Scan(Fresh(Start, headers), a).Again?
    ensures (forall b :: Resume(Scan(Fresh(Start, headers), a), b) == Scan(Fresh(Start, headers), a + b)) <==> Blank(a)
  {
    var start := Fresh(Start, headers);
    var first := Scan(start, a);
    assert Describes(start, "", "", [], headers);
    var c, blank, done := ScanSound(start, "", a, "", [], headers);
    assert "" + a == a;
    if Blank(a) {
      DriveBlank(start, a);
      ScanAfter(start, a, "");
      assert a + "" == a && start.line + a == a;
    } else {
      var b := Completion(c);
      assert c.h.Start? ==> a == blank + "" + "";
      var fs := Completes(c, a, blank, done, headers);
      BlockAccepted(headers, blank, fs, "");
      assert Block(blank, fs) + "" == a + b;
      assert Resume(first, b) != Scan(start, a + b) by { SplitDiffers(c, b); }
    }
  }

  lemma SplitDiffers(c: Cursor, b: string)
    requires InField(c.h) || (c.h.Lf? && c.line == [LF]) || (c.h.EndCr? && c.line == [LF, CR])
    requires b == Completion(c)
    ensures Scan(Fresh(c.h, c.headers), c.line + b) != Success(c.headers, "")
    ensures !Scan(Fresh(c.h, c.headers), c.line + b).Success? || c.h.EndCr?
    ensures Scan(Fresh(c.h, c.headers), c.line + b).Success? ==> Scan(Fresh(c.h, c.headers), c.line + b).rest != ""
  {
    var f := Fresh(c.h, c.headers);
    if InField(c.h) {
      UnmarkedKeyNeverSucceeds(f, c.line + b);
    } else {
      var f1 := Drive1(f, [LF]);
      if c.h.Lf? {
        ScanAfter(f, [LF], b);
        assert Feed(f1, b[0]).Fail?;
      } else {
        ScanAfter(f, [LF], [CR] + b);
        assert c.line + b == [LF] + ([CR] + b);
        ScanDone(f1, [CR] + b);
      }
    }
  }
}
