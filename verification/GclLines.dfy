/**
 A configuration file of common/gcl.c read line by line, as a person would: what each line assigns, told
 without the parser's states, and that the parser does exactly that for every text.
 */
module GclLines {
  import opened Wrappers
  import opened GclText

  // ---- what a line says ----

  /** The first place of a character, or the end. */
  function UpTo(text: Text, ch: char): (n: nat)
    ensures n <= |text| && (n < |text| ==> text[n] == ch) && forall i :: 0 <= i < n ==> text[i] != ch
  {
    if text == [] || text[0] == ch then 0 else
      var n := UpTo(text[1..], ch);
      assert forall i :: 1 <= i < n + 1 ==> text[i] == text[1..][i - 1];
      1 + n
  }

  /** The characters that count up to a separator or the end, and what follows the separator, if there is one. */
  datatype Scanned = Scanned(word: Text, rest: Option<Text>)

  /** What stands between a quote at the front and the closing one, or the end. */
  function Inside(text: Text): Text
    requires text != []
  {
    text[1..][..UpTo(text[1..], '"')]
  }

  /** What follows the closing quote, if there is one. */
  function Beyond(text: Text): (r: Option<Text>)
    requires text != []
    ensures r.Some? ==> |r.value| < |text|
  {
    var n := UpTo(text[1..], '"');
    if n == |text[1..]| then None else Some(text[1..][n + 1..])
  }

  /** White space is passed over; quotes open only where a word could begin (`open`); '#' ends the line. */
  function Scan(text: Text, open: bool): (r: Scanned)
    ensures r.rest.Some? ==> |r.rest.value| < |text|
    decreases |text|
  {
    if text == [] || text[0] == '#' then Scanned([], None)
    else if text[0] == '=' then Scanned([], Some(text[1..]))
    else if text[0] == '"' && open then
      var rest := Beyond(text);
      if rest.None? then Scanned(Inside(text), None)
      else
        var r := Scan(rest.value, true);
        Scanned(Inside(text) + r.word, r.rest)
    else if IsSpace(text[0]) then Scan(text[1..], true)
    else
      var r := Scan(text[1..], false);
      Scanned([text[0]] + r.word, r.rest)
  }

  /** A token holds 255 characters. */
  function Cut(s: Text): (r: Text)
    ensures |r| <= 255
  {
    if |s| > 255 then s[..255] else s
  }

  /** The item a line is about and the value it gives: the first known key before a separator, and what follows. */
  function Meaning(c: seq<Item>, line: Text): (m: Option<(nat, Text)>)
    ensures m.Some? ==> m.value.0 < |c|
    decreases |line|
  {
    var r := Scan(line, true);
    if r.rest.None? then None
    else
      var i := if r.word == [] then |c| else Lookup(c, CString(Cut(r.word)));
      if i < |c| then Some((i, CString(Cut(Scan(r.rest.value, true).word)))) else Meaning(c, r.rest.value)
  }

  function Assign(c: seq<Item>, i: nat, v: Text): seq<Item>
    requires i < |c|
  {
    c[i := c[i].(value := Some(v))]
  }

  /** A line gives its item the value, if that has none. */
  function AfterLine(c: seq<Item>, line: Text): seq<Item> {
    var m := Meaning(c, line);
    if m.Some? && c[m.value.0].value.None? then Assign(c, m.value.0, m.value.1) else c
  }

  /** A file: line after line; a last line without its newline replaces a value that is there. */
  function AfterFile(c: seq<Item>, text: Text): seq<Item>
    decreases |text|
  {
    var n := UpTo(text, '\n');
    if n < |text| then AfterFile(AfterLine(c, text[..n]), text[n + 1..])
    else
      var m := Meaning(c, text);
      if m.Some? then Assign(c, m.value.0, m.value.1) else c
  }

  // ---- the parser does that ----

  lemma CutKept(tok: Text, ch: char)
    requires |tok| <= TOKSIZE - 1
    ensures Kept(tok, ch) == Cut(tok + [ch])
  {
    assert |tok| == 255 ==> (tok + [ch])[..255] == tok;
  }

  lemma CutMore(a: Text, b: Text)
    ensures Cut(Cut(a) + b) == Cut(a + b)
  {
    if |a| > 255 {
      assert (a[..255] + b)[..255] == a[..255] == (a + b)[..255];
    }
  }

  lemma CutShort(a: Text)
    requires |a| <= 255
    ensures Cut(a) == a && Cut(a + []) == a
  {
    assert a + [] == a;
  }

  /** A character more, and then the others. */
  lemma CutStep(tok: Text, ch: char, more: Text)
    requires |tok| <= TOKSIZE - 1
    ensures Cut(Kept(tok, ch) + more) == Cut(tok + ([ch] + more))
  {
    CutKept(tok, ch);
    CutMore(tok + [ch], more);
    assert tok + [ch] + more == tok + ([ch] + more);
  }

  /** Inside quotes, up to the closing one. */
  lemma {:induction false} FeedInside(s: Parser, text: Text)
    requires ParserOk(s) && s.mode == Quoted && InLine(text)
    ensures var n := UpTo(text, '"');
      && (n == |text| ==> FeedAll(s, text) == s.(tok := Cut(s.tok + text)))
      && (n < |text| ==>
            && ParserOk(s.(mode := Initial, tok := Cut(s.tok + text[..n])))
            && FeedAll(s, text) == FeedAll(s.(mode := Initial, tok := Cut(s.tok + text[..n])), text[n + 1..]))
    decreases |text|
  {
    CutShort(s.tok);
    if text != [] {
      if text[0] == '"' {
        assert text[..0] == [];
      } else {
        FeedInside(s.(tok := Kept(s.tok, text[0])), text[1..]);
        InsideStep(s.tok, text);
      }
    }
  }

  lemma InsideStep(tok: Text, text: Text)
    requires |tok| <= TOKSIZE - 1 && text != [] && text[0] != '"'
    ensures var n := UpTo(text[1..], '"');
      && Cut(Kept(tok, text[0]) + text[1..]) == Cut(tok + text)
      && Cut(Kept(tok, text[0]) + text[1..][..n]) == Cut(tok + text[..n + 1])
      && (n < |text[1..]| ==> text[1..][n + 1..] == text[n + 2..])
  {
    var n := UpTo(text[1..], '"');
    CutStep(tok, text[0], text[1..]);
    CutStep(tok, text[0], text[1..][..n]);
    assert [text[0]] + text[1..] == text && [text[0]] + text[1..][..n] == text[..n + 1];
  }

  /** Where the parser goes on after a separator, before any item is known. */
  function AfterSep(s: Parser): Parser
    requires ParserOk(s)
  {
    if s.tok == [] then s.(mode := Initial) else Parser(Initial, [], Chosen(s.items, CString(s.tok)), s.items)
  }

  /** The parser has read the word, and has no separator to act on. */
  ghost predicate HasRead(s: Parser, word: Text, f: Parser) {
    f.item == s.item && f.items == s.items && f.tok == Cut(s.tok + word)
  }

  /** Reading one scan's worth. */
  ghost predicate ReadsScan(s: Parser, text: Text, r: Scanned)
    requires ParserOk(s)
  {
    if s.item.Some? || r.rest.None? then HasRead(s, r.word, FeedAll(s, text))
    else
      && ParserOk(s.(tok := Cut(s.tok + r.word)))
      && FeedAll(s, text) == FeedAll(AfterSep(s.(tok := Cut(s.tok + r.word))), r.rest.value)
  }

  lemma {:induction false} FeedScan(s: Parser, text: Text)
    requires ParserOk(s) && InLine(text) && (s.mode == Initial || s.mode == Unquoted)
    ensures ReadsScan(s, text, Scan(text, s.mode == Initial))
    decreases |text|
  {
    CutShort(s.tok);
    if text != [] {
      var ch := text[0];
      if ch == '#' {
        FeedComment(s.(mode := Comment), text[1..]);
      } else if ch == '=' {
        FeedSeparator(s, text);
      } else if ch == '"' && s.mode == Initial {
        ScanQuoted(s, text);
      } else if IsSpace(ch) {
        FeedScan(s.(mode := Initial), text[1..]);
      } else {
        ScanPlain(s, text);
      }
    }
  }

  lemma FeedSeparator(s: Parser, text: Text)
    requires ParserOk(s) && InLine(text) && (s.mode == Initial || s.mode == Unquoted) && text != [] && text[0] == '='
    ensures ReadsScan(s, text, Scan(text, s.mode == Initial))
  {
    CutShort(s.tok);
    var t := s.(mode := Sep);
    assert Turn(s, '=') == (t, false);
    if s.item.Some? {
      assert Feed(t, '=') == t;
      FeedSurplus(t, text[1..]);
    } else {
      assert Feed(t, '=') == AfterSep(s);
      assert s.(tok := Cut(s.tok + [])) == s;
    }
  }

  lemma ScanQuoted(s: Parser, text: Text)
    requires ParserOk(s) && InLine(text) && s.mode == Initial && text != [] && text[0] == '"'
    ensures ReadsScan(s, text, Scan(text, true))
    decreases |text|, 0
  {
    OpenQuote(s, text);
    if Beyond(text).Some? {
      var u, rest := s.(tok := Cut(s.tok + Inside(text))), Beyond(text).value;
      BeyondInLine(text);
      FeedScan(u, rest);
      ReadsOn(s, u, Inside(text), text, rest, Scan(rest, true));
    }
  }

  /** Everything up to the closing quote counts. */
  lemma OpenQuote(s: Parser, text: Text)
    requires ParserOk(s) && InLine(text) && s.mode == Initial && text != [] && text[0] == '"'
    ensures Beyond(text).None? ==> HasRead(s, Inside(text), FeedAll(s, text))
    ensures Beyond(text).Some? ==>
      && ParserOk(s.(tok := Cut(s.tok + Inside(text))))
      && FeedAll(s, text) == FeedAll(s.(tok := Cut(s.tok + Inside(text))), Beyond(text).value)
  {
    var t, n := s.(mode := Quoted), UpTo(text[1..], '"');
    assert Feed(s, '"') == t;
    FeedInside(t, text[1..]);
    assert n == |text[1..]| ==> text[1..][..n] == text[1..];
  }

  lemma InLineFrom(text: Text, k: nat)
    requires InLine(text) && k <= |text|
    ensures InLine(text[k..])
  {
  }

  lemma BeyondInLine(text: Text)
    requires InLine(text) && text != []
    ensures Beyond(text).Some? ==> InLine(Beyond(text).value)
  {
    var n := UpTo(text[1..], '"');
    InLineFrom(text, 1);
    if n < |text[1..]| {
      InLineFrom(text[1..], n + 1);
    }
  }

  /** The parser has read the first characters that count, and goes on with the rest. */
  lemma ReadsOn(s: Parser, u: Parser, first: Text, text: Text, rest: Text, r: Scanned)
    requires ParserOk(s) && ParserOk(u) && u.mode == s.mode && u.item == s.item && u.items == s.items
    requires u.tok == Cut(s.tok + first) && FeedAll(s, text) == FeedAll(u, rest) && ReadsScan(u, rest, r)
    ensures ReadsScan(s, text, Scanned(first + r.word, r.rest))
  {
    CutMore(s.tok + first, r.word);
    assert s.tok + first + r.word == s.tok + (first + r.word);
    assert s.(tok := Cut(s.tok + (first + r.word))) == u.(tok := Cut(u.tok + r.word));
  }

  lemma ScanPlain(s: Parser, text: Text)
    requires ParserOk(s) && InLine(text) && (s.mode == Initial || s.mode == Unquoted) && text != []
    requires text[0] != '#' && text[0] != '=' && !IsSpace(text[0]) && !(text[0] == '"' && s.mode == Initial)
    ensures ReadsScan(s, text, Scan(text, s.mode == Initial))
    decreases |text|, 0
  {
    var t := s.(mode := Unquoted, tok := Kept(s.tok, text[0]));
    assert Feed(s, text[0]) == t;
    FeedScan(t, text[1..]);
    CutStep(s.tok, text[0], Scan(text[1..], false).word);
  }

  const Start: Parser := Parser(Initial, [], None, [])

  /** A line, without its end, leads to the item it is about, with its value as the token. */
  lemma {:induction false} FeedMeaning(c: seq<Item>, line: Text)
    requires InLine(line)
    ensures var f, m := FeedAll(Start.(items := c), line), Meaning(c, line);
      && f.items == c
      && (if m.None? then f.item == None else f.item == Some(m.value.0) && CString(f.tok) == m.value.1)
    decreases |line|
  {
    var s, r := Start.(items := c), Scan(line, true);
    FeedScan(s, line);
    assert [] + r.word == r.word;
    if r.rest.Some? {
      ScanInLine(line, true);
      var t := s.(tok := Cut(r.word));
      var i := if r.word == [] then |c| else Lookup(c, CString(Cut(r.word)));
      if i < |c| {
        var u := Parser(Initial, [], Some(i), c);
        assert AfterSep(t) == u;
        FeedScan(u, r.rest.value);
        assert [] + Scan(r.rest.value, true).word == Scan(r.rest.value, true).word;
      } else {
        assert AfterSep(t) == s;
        FeedMeaning(c, r.rest.value);
      }
    }
  }

  lemma {:induction false} ScanInLine(text: Text, open: bool)
    requires InLine(text)
    ensures Scan(text, open).rest.Some? ==> InLine(Scan(text, open).rest.value)
    decreases |text|
  {
    if text != [] {
      InLineFrom(text, 1);
      BeyondInLine(text);
      if text[0] == '"' && open {
        if Beyond(text).Some? {
          ScanInLine(Beyond(text).value, true);
        }
      } else {
        ScanInLine(text[1..], true);
        ScanInLine(text[1..], false);
      }
    }
  }

  /** A whole line. */
  lemma FeedWholeLine(c: seq<Item>, line: Text)
    requires InLine(line)
    ensures FeedAll(Start.(items := c), line + ['\n']) == Start.(items := AfterLine(c, line))
  {
    var s := Start.(items := c);
    var f := FeedAll(s, line);
    FeedMeaning(c, line);
    FeedSplit(s, line, ['\n']);
    FeedOne(f, '\n');
    FeedAllSettles(s, line);
    EndOfLine(f);
  }

  lemma EndOfLine(f: Parser)
    requires ParserOk(f) && Settled(f)
    ensures Feed(f, '\n') == Start.(items := if f.item.Some? && f.items[f.item.value].value.None?
                                             then Assign(f.items, f.item.value, CString(f.tok)) else f.items)
  {
    var t := f.(mode := Newline);
    assert Turn(f, '\n') == (t, false);
    assert Feed(f, '\n') == Feed(t, '\n');
  }

  /** Reading any text into any table assigns what its lines say. */
  lemma {:induction false} LoadedIs(c: seq<Item>, text: Text)
    ensures Loaded(c, text) == AfterFile(c, text)
    decreases |text|
  {
    var s, n := Start.(items := c), UpTo(text, '\n');
    if n < |text| {
      assert text[..n] + ['\n'] + text[n + 1..] == text;
      FeedSplit(s, text[..n] + ['\n'], text[n + 1..]);
      FeedWholeLine(c, text[..n]);
      LoadedIs(AfterLine(c, text[..n]), text[n + 1..]);
    } else {
      FeedMeaning(c, text);
    }
  }

  // ---- lines with white space and comments ----

  predicate Blank(s: Text) {
    InLine(s) && forall i :: 0 <= i < |s| ==> IsSpace(s[i])
  }

  lemma {:induction false} ScanBlank(a: Text, text: Text, open: bool)
    requires Blank(a) && (a == [] ==> open)
    ensures Scan(a + text, open) == Scan(text, true)
    decreases |a|
  {
    if a == [] {
      assert a + text == text;
    } else {
      assert (a + text)[1..] == a[1..] + text;
      ScanBlank(a[1..], text, true);
    }
  }

  /** A plain word stands for itself, whatever follows. */
  lemma {:induction false} ScanWord(w: Text, text: Text, open: bool)
    requires (forall i :: 0 <= i < |w| ==> PlainChar(w[i])) && (open && w != [] ==> w[0] != '"')
    ensures var r := Scan(text, open && w == []); Scan(w + text, open) == Scanned(w + r.word, r.rest)
    decreases |w|
  {
    if w == [] {
      assert w + text == text && forall x: Text :: w + x == x;
    } else {
      var r := Scan(text, false);
      assert (w + text)[1..] == w[1..] + text;
      ScanWord(w[1..], text, false);
      assert [w[0]] + (w[1..] + r.word) == w + r.word;
    }
  }

  /** What ends a line after a word: white space, and perhaps a comment. */
  predicate Tail(s: Text) {
    InLine(s) && var n := UpTo(s, '#'); Blank(s[..n])
  }

  lemma {:induction false} ScanTail(s: Text, open: bool)
    requires Tail(s)
    ensures Scan(s, open) == Scanned([], None)
    decreases |s|
  {
    if s != [] && s[0] != '#' {
      var n := UpTo(s, '#');
      assert s[..n][0] == s[0];
      assert s[..n][1..] == s[1..][..n - 1];
      ScanTail(s[1..], true);
    }
  }

  /** `key = value # note`, with white space anywhere around the two words, sets the key to the value. */
  lemma SpacedLine(c: seq<Item>, i: nat, a: Text, b: Text, d: Text, v: Text, end: Text)
    requires Ascending(c) && i < |c| && c[i].key != [] && Plain(c[i].key) && Plain(v)
    requires Blank(a) && Blank(b) && Blank(d) && Tail(end)
    ensures Meaning(c, a + (c[i].key + (b + ("=" + (d + (v + end)))))) == Some((i, v))
  {
    var key, rest := c[i].key, d + (v + end);
    ScanBlank(a, key + (b + ("=" + rest)), true);
    ScanWord(key, b + ("=" + rest), true);
    assert ("=" + rest)[1..] == rest;
    ScanSpaceThenSep(b, rest);
    CutShort(key);
    assert key + [] == key;
    PlainCString(key);
    LookupAscending(c, i);
    ScanBlank(d, v + end, true);
    ScanWord(v, end, true);
    ScanTail(end, true);
    ScanTail(end, false);
    assert v + [] == v;
    CutShort(v);
    PlainCString(v);
  }

  lemma ScanSpaceThenSep(b: Text, rest: Text)
    requires Blank(b)
    ensures Scan(b + ("=" + rest), false) == Scanned([], Some(rest))
  {
    assert ("=" + rest)[1..] == rest;
    if b == [] {
      assert b + ("=" + rest) == "=" + rest;
    } else {
      ScanBlank(b, "=" + rest, false);
    }
  }

  // ---- which values survive printing and reading back ----

  /** Nothing of the text is lost in a scan. */
  predicate Lossless(s: Text, open: bool) {
    && (forall i :: 0 <= i < |s| ==> !IsSpace(s[i]) && s[i] != '#' && s[i] != '=')
    && (open && s != [] ==> s[0] != '"')
  }

  lemma {:induction false} ScanLoses(s: Text, open: bool)
    ensures |Scan(s, open).word| <= |s|
    ensures Scan(s, open).word == s <==> Lossless(s, open)
    ensures |Scan(s, open).word| == |s| ==> Scan(s, open).word == s
    decreases |s|
  {
    if s != [] && s[0] != '#' && s[0] != '=' {
      if s[0] == '"' && open {
        QuoteLoses(s);
      } else if IsSpace(s[0]) {
        ScanLoses(s[1..], true);
      } else {
        ScanLoses(s[1..], false);
        LosslessTail(s, open);
        assert s == [s[0]] + s[1..];
      }
    }
  }

  lemma LosslessTail(s: Text, open: bool)
    requires s != [] && !IsSpace(s[0]) && s[0] != '#' && s[0] != '=' && !(s[0] == '"' && open)
    ensures Lossless(s, open) <==> Lossless(s[1..], false)
  {
    assert forall i :: 1 <= i < |s| ==> s[i] == s[1..][i - 1];
  }

  lemma QuoteLoses(s: Text)
    requires s != [] && s[0] == '"'
    ensures |Scan(s, true).word| < |s|
    decreases |s|, 0
  {
    var rest := Beyond(s);
    if rest.Some? {
      ScanLoses(rest.value, true);
    }
  }

  /** A token is the text itself exactly if that is short enough and has no NUL. */
  lemma TokenIs(w: Text, v: Text)
    requires |w| <= |v| && (|w| == |v| ==> w == v)
    ensures CString(Cut(w)) == v <==> w == v && |v| <= 255 && forall i :: 0 <= i < |v| ==> v[i] != '\0'
  {
    CStringWhole(Cut(w));
  }

  lemma {:induction false} CStringWhole(s: Text)
    ensures CString(s) == s <==> forall i :: 0 <= i < |s| ==> s[i] != '\0'
    ensures |CString(s)| == |s| ==> CString(s) == s
  {
    if s != [] {
      CStringWhole(s[1..]);
      assert s == [s[0]] + s[1..];
      assert forall i :: 1 <= i < |s| ==> s[i] == s[1..][i - 1];
    }
  }

  lemma PlainIs(v: Text)
    ensures Plain(v) <==> InLine(v) && Lossless(v, true) && |v| <= 255 && forall i :: 0 <= i < |v| ==> v[i] != '\0'
  {
    assert InLine(v) || !Lossless(v, true) by {
      if !InLine(v) {
        var i :| 0 <= i < |v| && v[i] == '\n';
        assert IsSpace(v[i]);
      }
    }
  }

  /** The line of a plain key gives its item what a scan of the value's text leaves of it. */
  lemma MeaningOfLine(c: seq<Item>, i: nat, v: Text)
    requires Ascending(c) && i < |c| && c[i].key != [] && Plain(c[i].key)
    ensures Meaning(c, c[i].key + ("=" + v)) == Some((i, CString(Cut(Scan(v, true).word))))
  {
    var key := c[i].key;
    ScanWord(key, "=" + v, true);
    assert ("=" + v)[1..] == v;
    assert key + [] == key;
    CutShort(key);
    PlainCString(key);
    LookupAscending(c, i);
  }

  /** A value that is printed in a line and read back is itself again exactly if it is plain. */
  lemma ReadBack(c: seq<Item>, i: nat, v: Text)
    requires Ascending(c) && i < |c| && c[i].key != [] && Plain(c[i].key) && c[i].value == None
    ensures Loaded(c, c[i].key + ("=" + v) + ['\n'])[i].value == Some(v) <==> Plain(v)
  {
    var key := c[i].key;
    var n := UpTo(v, '\n');
    var text, first := key + ("=" + v) + ['\n'], v[..n];
    var line, rest := key + ("=" + first), (v + ['\n'])[n + 1..];
    assert forall j :: 0 <= j < |key| ==> key[j] != '\n' by {
      PlainIs(key);
    }
    assert text == line + ['\n'] + rest;
    FeedWholeLine(c, line);
    FeedSplit(Start.(items := c), line + ['\n'], rest);
    MeaningOfLine(c, i, first);
    var d := AfterLine(c, line);
    var w := Scan(first, true).word;
    assert d[i].value == Some(CString(Cut(w)));
    RestKeeps(d, rest, i);
    ScanLoses(first, true);
    CStringWhole(Cut(w));
    if n == |v| {
      assert first == v;
      TokenIs(w, v);
      PlainIs(v);
    } else {
      assert v[n] == '\n';
      PlainIs(v);
    }
  }

  /** Whole lines after it do not change a value. */
  lemma RestKeeps(d: seq<Item>, rest: Text, i: nat)
    requires i < |d| && d[i].value.Some? && (rest != [] ==> rest[|rest| - 1] == '\n')
    ensures Ended(FeedAll(Start.(items := d), rest))[i] == d[i]
  {
    ValueKeptByLines(d, rest, i);
  }

  // ---- strcmp and isspace ----

  /** strcmp is decided at the first position where the keys differ, a key that ends there being less. */
  lemma {:induction false} LessIs(a: Text, b: Text)
    ensures Less(a, b) <==> exists k :: FirstDiffers(a, b, k)
  {
    if b != [] && a != [] && a[0] == b[0] {
      LessIs(a[1..], b[1..]);
      if k :| FirstDiffers(a[1..], b[1..], k) {
        assert a[..k + 1] == [a[0]] + a[1..][..k] && b[..k + 1] == [b[0]] + b[1..][..k];
        assert FirstDiffers(a, b, k + 1);
      }
      if k :| FirstDiffers(a, b, k) {
        assert k > 0 && a[1..][..k - 1] == a[..k][1..] && b[1..][..k - 1] == b[..k][1..];
        assert FirstDiffers(a[1..], b[1..], k - 1);
      }
    } else if b != [] {
      assert a[..0] == b[..0];
      assert Less(a, b) ==> FirstDiffers(a, b, 0);
      if k :| FirstDiffers(a, b, k) && k > 0 {
        assert a[..k][0] == b[..k][0];
      }
    }
  }

  ghost predicate FirstDiffers(a: Text, b: Text, k: int) {
    0 <= k <= |a| && k < |b| && a[..k] == b[..k] && (k == |a| || a[k] < b[k])
  }

  lemma SpaceIs(ch: char)
    ensures IsSpace(ch) <==> ch as int == 32 || 9 <= ch as int <= 13
  {
  }
}
