/** The error page of `HttpData::HandleError`. */
module ErrorPages {
  import opened IntegerFormat

  /** An error page, by its status code and text. */
  datatype Page = Page(code: nat, text: string)

  /** Its header, and its body, byte for byte. */
  function PageHeader(page: Page): string {
    "HTTP/1.1 " + Decimal(page.code) + " " + page.text + "\r\n"
    + "Content-Type: text/html\r\n"
    + "Connection: Close\r\n"
    + "Content-Length: " + Decimal(|PageBody(page)|) + "\r\n"
    + "Server: Licheng Jiang's Web Server"
  }

  function PageBody(page: Page): string {
    "\n\U{E5}\U{93}\U{8E}~\U{E5}\U{87}\U{BA}\U{E9}\U{94}\U{99}\U{E4}\U{BA}\U{86}\n"
    + Decimal(page.code) + " " + page.text
    + "\nLicheng Jiang's Web Server\n"
  }

  /** Lines, each ended by a line break but the last. */
  function Joined(lines: seq<string>): string {
    if lines == [] then "" else if |lines| == 1 then lines[0] else lines[0] + "\r\n" + Joined(lines[1..])
  }

  /** Two of its carriage returns are never just one character apart. */
  lemma {:induction false} NoEmptyLine(lines: seq<string>, i: nat)
    requires forall l <- lines :: l != "" && Clean(l)
    requires i + 2 < |Joined(lines)|
    ensures Joined(lines)[i] != '\r' || Joined(lines)[i + 2] != '\r'
    decreases |lines|
  {
    var text := Joined(lines);
    if |lines| == 1 {
      assert lines[0] in lines && text == lines[0] && text[i] in lines[0];
    } else {
      var first, rest := lines[0], Joined(lines[1..]);
      assert lines[0] in lines && text == first + "\r\n" + rest;
      if i < |first| {
        assert text[i] in first;
      } else if i == |first| {
        assert text[i + 2] == rest[0] && lines[1] in lines;
        RestStarts(lines[1..]);
        assert rest[0] in lines[1];
      } else if i == |first| + 1 {
        assert text[i] == '\n';
      } else {
        assert forall l <- lines[1..] :: l in lines;
        NoEmptyLine(lines[1..], i - |first| - 2);
      }
    }
  }

  lemma RestStarts(lines: seq<string>)
    requires lines != [] && lines[0] != ""
    ensures Joined(lines) != "" && Joined(lines)[0] == lines[0][0]
  {
  }

  lemma {:induction false} NumeralHasNoCr(n: nat)
    ensures Numeral(n, 10) != "" && Clean(Numeral(n, 10))
    decreases n
  {
    if n >= 10 { NumeralHasNoCr(n / 10); }
  }

  /** No error page ends its header: nowhere in it is an empty line. */
  lemma PageHasNoEmptyLine(page: Page, i: nat)
    requires Clean(page.text)
    ensures var text := PageHeader(page) + PageBody(page); i + 4 <= |text| ==> text[i..i + 4] != "\r\n\r\n"
  {
    var text := PageHeader(page) + PageBody(page);
    NumeralHasNoCr(page.code);
    NumeralHasNoCr(|PageBody(page)|);
    LinesAreLines(page);
    PageIsJoined(page);
    hide *;
    if i + 4 <= |text| {
      NoEmptyLine(PageLines(page), i);
      assert text[i..i + 4][0] == text[i] && text[i..i + 4][2] == text[i + 2];
    }
  }

  function PageLines(page: Page): seq<string> {
    ["HTTP/1.1 " + Decimal(page.code) + " " + page.text, "Content-Type: text/html", "Connection: Close",
     "Content-Length: " + Decimal(|PageBody(page)|), "Server: Licheng Jiang's Web Server" + PageBody(page)]
  }

  predicate Clean(s: string) {
    '\r' !in s
  }

  lemma CleanJoin(a: string, b: string)
    ensures Clean(a + b) <==> Clean(a) && Clean(b)
  {
    assert a != "" ==> a[0] in a + b;
  }

  lemma BodyIsClean(page: Page)
    requires Clean(page.text) && Clean(Decimal(page.code))
    ensures Clean(PageBody(page))
  {
    var start := "\n\U{E5}\U{93}\U{8E}~\U{E5}\U{87}\U{BA}\U{E9}\U{94}\U{99}\U{E4}\U{BA}\U{86}\n";
    var code, end := Decimal(page.code), "\nLicheng Jiang's Web Server\n";
    assert Clean(start) && Clean(" ") && Clean(end);
    hide Decimal, Clean;
    CleanJoin(start, code);
    CleanJoin(start + code, " ");
    CleanJoin(start + code + " ", page.text);
    CleanJoin(start + code + " " + page.text, end);
  }

  lemma LinesAreLines(page: Page)
    requires Clean(page.text) && Clean(Decimal(page.code)) && Clean(Decimal(|PageBody(page)|))
    ensures forall l <- PageLines(page) :: l != "" && Clean(l)
  {
    var code, size, body := Decimal(page.code), Decimal(|PageBody(page)|), PageBody(page);
    BodyIsClean(page);
    assert Clean("HTTP/1.1 ") && Clean("Content-Type: text/html") && Clean("Connection: Close") && Clean(" ");
    assert Clean("Content-Length: ") && Clean("Server: Licheng Jiang's Web Server");
    hide Decimal, Clean, PageBody;
    CleanJoin("HTTP/1.1 ", code);
    CleanJoin("HTTP/1.1 " + code, " ");
    CleanJoin("HTTP/1.1 " + code + " ", page.text);
    CleanJoin("Content-Length: ", size);
    CleanJoin("Server: Licheng Jiang's Web Server", body);
  }

  lemma PageIsJoined(page: Page)
    ensures PageHeader(page) + PageBody(page) == Joined(PageLines(page))
  {
    var l := PageLines(page);
    hide Decimal, PageBody;
    JoinedFive(l[0], l[1], l[2], l[3], l[4]);
    assert l == [l[0], l[1], l[2], l[3], l[4]];
  }

  lemma JoinedFive(a: string, b: string, c: string, d: string, e: string)
    ensures Joined([a, b, c, d, e]) == a + "\r\n" + b + "\r\n" + c + "\r\n" + d + "\r\n" + e
  {
    assert [a, b, c, d, e][1..] == [b, c, d, e] && [b, c, d, e][1..] == [c, d, e] && [c, d, e][1..] == [d, e];
    assert [d, e][1..] == [e];
    assert Joined([d, e]) == d + "\r\n" + e;
    assert Joined([c, d, e]) == c + "\r\n" + d + "\r\n" + e;
    assert Joined([b, c, d, e]) == b + "\r\n" + c + "\r\n" + d + "\r\n" + e;
  }
}
