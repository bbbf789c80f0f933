/**
 The meaning of a configuration file of common/gcl.c: what reading one character does to the table,
 and why reading back a printed table restores it.
 */
module GclText {
  import opened Wrappers

  type Text = seq<char>

  /** struct gcl_item. */
  datatype Item = Item(key: Text, dval: Text, value: Option<Text>)

  /** GCL_TOKSIZE and GCL_BUFSIZE. */
  const TOKSIZE: nat := 256
  const BUFSIZE: nat := 1024

  // ---- keys ----

  /** strcmp(a, b) < 0. */
  predicate Less(a: Text, b: Text) {
    b != [] && (a == [] || a[0] < b[0] || (a[0] == b[0] && Less(a[1..], b[1..])))
  }

  lemma {:induction false} LessTotal(a: Text, b: Text)
    ensures Less(a, b) || a == b || Less(b, a)
    ensures !(Less(a, b) && Less(b, a)) && !Less(a, a)
  {
    if a != [] && b != [] {
      LessTotal(a[1..], b[1..]);
      LessTotal(a[1..], a[1..]);
      assert a == [a[0]] + a[1..] && b == [b[0]] + b[1..];
    } else if a != [] {
      LessTotal(a[1..], a[1..]);
    }
  }

  lemma {:induction false} LessTransitive(a: Text, b: Text, c: Text)
    requires Less(a, b) && Less(b, c)
    ensures Less(a, c)
  {
    if a != [] && a[0] == b[0] == c[0] {
      LessTransitive(a[1..], b[1..], c[1..]);
    }
  }

  /** Keys are in strictly ascending order, as `ascend` demands. */
  predicate Ascending(c: seq<Item>) {
    forall i :: 0 <= i < |c| - 1 ==> Less(c[i].key, c[i + 1].key)
  }

  lemma {:induction false} AscendingFar(c: seq<Item>, i: nat, j: nat)
    requires Ascending(c) && i < j < |c|
    ensures Less(c[i].key, c[j].key)
    decreases j
  {
    if i + 1 < j {
      AscendingFar(c, i, j - 1);
      LessTransitive(c[i].key, c[j - 1].key, c[j].key);
    }
  }

  /** The item with a key, found by looking at each; |c| if there is none. */
  function Lookup(c: seq<Item>, key: Text): (i: nat)
    ensures i <= |c| && (i < |c| ==> c[i].key == key) && forall j :: 0 <= j < i ==> c[j].key != key
  {
    if c == [] then 0 else if c[0].key == key then 0 else
      var i := Lookup(c[1..], key);
      assert forall j :: 1 <= j < i + 1 ==> c[j] == c[1..][j - 1];
      1 + i
  }

  predicate SameKeys(c: seq<Item>, d: seq<Item>) {
    |c| == |d| && forall i :: 0 <= i < |c| ==> c[i].key == d[i].key
  }

  /** The search only looks at keys. */
  lemma LookupKeys(c: seq<Item>, d: seq<Item>, key: Text)
    requires SameKeys(c, d)
    ensures Lookup(c, key) == Lookup(d, key)
  {
    var i, j := Lookup(c, key), Lookup(d, key);
    assert i < |c| ==> d[i].key == key;
    assert j < |d| ==> c[j].key == key;
  }

  lemma LookupAscending(c: seq<Item>, i: nat)
    requires Ascending(c) && i < |c|
    ensures Lookup(c, c[i].key) == i
  {
    var j := Lookup(c, c[i].key);
    if j < i {
      AscendingFar(c, j, i);
      LessTotal(c[j].key, c[j].key);
    }
  }

  /** gcl_get: the value, or else the default. */
  function Effective(x: Item): Text {
    if x.value.Some? then x.value.value else x.dval
  }

  function Got(c: seq<Item>, key: Text): Option<Text> {
    var i := Lookup(c, key);
    if i == |c| then None else Some(Effective(c[i]))
  }

  // ---- reading ----

  datatype Mode = Initial | Comment | Quoted | Unquoted | Newline | Sep

  /** The parser: `tok` is the token so far, `item` the item whose line is being read. */
  datatype Parser = Parser(mode: Mode, tok: Text, item: Option<nat>, items: seq<Item>)

  predicate ParserOk(s: Parser) {
    |s.tok| <= TOKSIZE - 1 && (s.item.Some? ==> s.item.value < |s.items|)
  }

  predicate IsSpace(ch: char) {
    ch == ' ' || ch == '\t' || ch == '\n' || ch == '\r' || ch as int == 11 || ch as int == 12
  }

  /** A token as a C string: it ends at the first NUL. */
  function CString(s: Text): (r: Text)
    ensures |r| <= |s|
  {
    if s == [] || s[0] == '\0' then [] else [s[0]] + CString(s[1..])
  }

  /** A character more in the token, while there is room. */
  function Kept(tok: Text, ch: char): Text {
    if |tok| < TOKSIZE - 1 then tok + [ch] else tok
  }

  /** One turn of the loop: the new state, and whether the character was consumed. */
  function Turn(s: Parser, ch: char): (r: (Parser, bool))
    requires ParserOk(s)
    ensures ParserOk(r.0) && SameKeys(r.0.items, s.items)
    ensures !r.1 ==> Rank(r.0.mode) < Rank(s.mode)
  {
    match s.mode
    case Initial =>
      if ch == '#' then (s.(mode := Comment), true)
      else if ch == '"' then (s.(mode := Quoted), true)
      else if ch == '\n' then (s.(mode := Newline), false)
      else if ch == '=' then (s.(mode := Sep), false)
      else if IsSpace(ch) then (s, true)
      else (s.(mode := Unquoted, tok := Kept(s.tok, ch)), true)
    case Comment =>
      if ch == '\n' then (s.(mode := Newline), false) else (s, true)
    case Quoted =>
      if ch == '"' then (s.(mode := Initial), true)
      else if ch == '\n' then (s.(mode := Newline), false)
      else (s.(tok := Kept(s.tok, ch)), true)
    case Unquoted =>
      if ch == '#' then (s.(mode := Comment), true)
      else if ch == '\n' then (s.(mode := Newline), false)
      else if ch == '=' then (s.(mode := Sep), false)
      else if IsSpace(ch) then (s.(mode := Initial), true)
      else (s.(tok := Kept(s.tok, ch)), true)
    case Sep =>
      if s.item.Some? then
        if ch == '\n' then (s.(mode := Newline), false) else (s, true)
      else if s.tok == [] then (s.(mode := Initial), true)
      else (Parser(Initial, [], Chosen(s.items, CString(s.tok)), s.items), true)
    case Newline =>
      (Parser(Initial, [], None,
              if s.item.None? || s.items[s.item.value].value.Some? then s.items else Stored(s)), true)
  }

  function Chosen(c: seq<Item>, key: Text): Option<nat> {
    var i := Lookup(c, key);
    if i == |c| then None else Some(i)
  }

  /** The token becomes the value of the item being read. */
  function Stored(s: Parser): seq<Item>
    requires s.item.Some? && s.item.value < |s.items|
  {
    s.items[s.item.value := s.items[s.item.value].(value := Some(CString(s.tok)))]
  }

  /** Turns that consume nothing lead on: to a separator, then to the end of a line. */
  function Rank(m: Mode): nat {
    match m
    case Newline => 0
    case Sep => 1
    case _ => 2
  }

  /** What one character does. */
  function Feed(s: Parser, ch: char): (r: Parser)
    requires ParserOk(s)
    ensures ParserOk(r) && |r.items| == |s.items|
    decreases Rank(s.mode)
  {
    var (t, consumed) := Turn(s, ch);
    if consumed then t else Feed(t, ch)
  }

  function FeedAll(s: Parser, text: Text): (r: Parser)
    requires ParserOk(s)
    ensures ParserOk(r) && |r.items| == |s.items|
    decreases |text|
  {
    if text == [] then s else FeedAll(Feed(s, text[0]), text[1..])
  }

  /** The end of the file ends the line being read; a value read before is replaced. */
  function Ended(s: Parser): seq<Item>
    requires ParserOk(s)
  {
    if s.item.Some? then Stored(s) else s.items
  }

  /** The table after a file was read into it. */
  function Loaded(c: seq<Item>, text: Text): seq<Item> {
    Ended(FeedAll(Parser(Initial, [], None, c), text))
  }

  /** Reading two pieces is reading the whole. */
  lemma {:induction false} FeedSplit(s: Parser, a: Text, b: Text)
    requires ParserOk(s)
    ensures FeedAll(s, a + b) == FeedAll(FeedAll(s, a), b)
    decreases |a|
  {
    if a == [] {
      assert a + b == b;
    } else {
      assert (a + b)[0] == a[0] && (a + b)[1..] == a[1..] + b;
      FeedSplit(Feed(s, a[0]), a[1..], b);
    }
  }

  /** A turn either consumes the character or leaves it to the next turn. */
  lemma FeedTurn(s: Parser, text: Text)
    requires ParserOk(s) && text != []
    ensures var (t, consumed) := Turn(s, text[0]); FeedAll(s, text) == FeedAll(t, if consumed then text[1..] else text)
  {
  }

  /** The same at a place in a text. */
  lemma FeedTurnAt(s: Parser, text: Text, p: nat)
    requires ParserOk(s) && p < |text|
    ensures var (t, consumed) := Turn(s, text[p]);
      FeedAll(s, text[p..]) == FeedAll(t, if consumed then text[p + 1..] else text[p..])
  {
    FeedTurn(s, text[p..]);
    assert text[p..][0] == text[p] && text[p..][1..] == text[p + 1..];
  }

  lemma {:induction false} CStringEnd(s: Text, t: nat)
    requires t < |s| && s[t] == '\0'
    ensures CString(s) == CString(s[..t])
  {
    if t > 0 && s[0] != '\0' {
      CStringEnd(s[1..], t - 1);
      assert s[..t][1..] == s[1..][..t - 1];
    }
  }

  lemma FeedOne(s: Parser, ch: char)
    requires ParserOk(s)
    ensures FeedAll(s, [ch]) == Feed(s, ch)
  {
    assert [ch][1..] == [];
    assert FeedAll(Feed(s, ch), []) == Feed(s, ch);
  }

  // ---- printing, and reading back ----

  function Line(x: Item): Text {
    x.key + "=" + Effective(x) + "\n"
  }

  /** gcl_sync. */
  function Printed(c: seq<Item>): Text {
    if c == [] then "" else Printed(c[..|c| - 1]) + Line(c[|c| - 1])
  }

  predicate PlainChar(ch: char) {
    !IsSpace(ch) && ch != '#' && ch != '=' && ch != '\0'
  }

  /** A text that stands for itself in a file, and fits a token. */
  predicate Plain(s: Text) {
    |s| <= TOKSIZE - 1 && (forall i :: 0 <= i < |s| ==> PlainChar(s[i])) && (s != [] ==> s[0] != '"')
  }

  predicate PlainItem(x: Item) {
    x.key != [] && Plain(x.key) && Plain(Effective(x))
  }

  lemma {:induction false} PlainCString(s: Text)
    requires forall i :: 0 <= i < |s| ==> PlainChar(s[i])
    ensures CString(s) == s
  {
    if s != [] {
      PlainCString(s[1..]);
    }
  }

  /** A plain word is read into the token. */
  lemma {:induction false} FeedWord(s: Parser, w: Text, k: nat)
    requires ParserOk(s) && s.mode == Initial && s.tok == [] && Plain(w) && k <= |w|
    ensures FeedAll(s, w[..k]) == s.(mode := if k == 0 then Initial else Unquoted, tok := w[..k])
  {
    if k == 0 {
      assert w[..0] == [];
    } else {
      FeedWord(s, w, k - 1);
      assert w[..k] == w[..k - 1] + [w[k - 1]];
      FeedSplit(s, w[..k - 1], [w[k - 1]]);
      FeedOne(FeedAll(s, w[..k - 1]), w[k - 1]);
      assert PlainChar(w[k - 1]);
    }
  }

  /** A whole line sets its item, if that has no value yet. */
  lemma FeedLine(c: seq<Item>, x: Item, i: nat)
    requires PlainItem(x) && Ascending(c) && i < |c| && c[i].key == x.key && c[i].value == None
    ensures var s := Parser(Initial, [], None, c);
      FeedAll(s, Line(x)) == s.(items := c[i := c[i].(value := Some(Effective(x)))])
  {
    var s := Parser(Initial, [], None, c);
    var v := Effective(x);
    FeedWord(s, x.key, |x.key|);
    assert x.key[..|x.key|] == x.key && v[..|v|] == v;
    var s1 := s.(mode := Unquoted, tok := x.key);
    PlainCString(x.key);
    LookupAscending(c, i);
    var s2 := Parser(Initial, [], Some(i), c);
    assert Turn(s1, '=') == (s1.(mode := Sep), false);
    assert Feed(s1, '=') == s2;
    FeedWord(s2, v, |v|);
    var s3 := FeedAll(s2, v);
    PlainCString(v);
    assert Turn(s3, '\n') == (s3.(mode := Newline), false);
    assert Feed(s3, '\n') == s.(items := c[i := c[i].(value := Some(v))]);
    FeedSplit(s, x.key, "=");
    FeedOne(s1, '=');
    FeedSplit(s, x.key + "=", v);
    FeedSplit(s, x.key + "=" + v, "\n");
    FeedOne(s3, '\n');
  }

  /** The table after the first `k` lines of a printed one. */
  function Restored(c: seq<Item>, k: nat): (r: seq<Item>)
    requires k <= |c|
    ensures |r| == |c|
  {
    seq(|c|, i requires 0 <= i < |c| => c[i].(value := if i < k then Some(Effective(c[i])) else None))
  }

  lemma {:induction false} FeedPrinted(c: seq<Item>, k: nat)
    requires Ascending(c) && k <= |c| && forall i :: 0 <= i < |c| ==> PlainItem(c[i])
    ensures var s := Parser(Initial, [], None, Restored(c, 0));
      FeedAll(s, Printed(c[..k])) == s.(items := Restored(c, k))
  {
    var s := Parser(Initial, [], None, Restored(c, 0));
    if k == 0 {
      assert c[..0] == [];
    } else {
      FeedPrinted(c, k - 1);
      assert c[..k][..k - 1] == c[..k - 1];
      FeedSplit(s, Printed(c[..k - 1]), Line(c[k - 1]));
      FeedLine(Restored(c, k - 1), c[k - 1], k - 1);
      assert Restored(c, k) ==
        Restored(c, k - 1)[k - 1 := Restored(c, k - 1)[k - 1].(value := Some(Effective(c[k - 1])))];
    }
  }

  lemma PrintedRestores(c: seq<Item>)
    requires Ascending(c) && forall i :: 0 <= i < |c| ==> PlainItem(c[i])
    ensures Loaded(Restored(c, 0), Printed(c)) == Restored(c, |c|)
  {
    FeedPrinted(c, |c|);
    assert c[..|c|] == c;
  }

  lemma RestoredGot(c: seq<Item>, key: Text)
    ensures Got(Restored(c, |c|), key) == Got(c, key)
  {
    LookupKeys(c, Restored(c, |c|), key);
  }

  /** Reading back what was printed into an empty table gives every key its value again. */
  lemma RoundTrip(c: seq<Item>, key: Text)
    requires Ascending(c) && forall i :: 0 <= i < |c| ==> PlainItem(c[i])
    ensures Got(Loaded(Restored(c, 0), Printed(c)), key) == Got(c, key)
  {
    PrintedRestores(c);
    RestoredGot(c, key);
  }

  // ---- values that are there already ----

  /** Until the end of the file a value that is there is never replaced. */
  lemma {:induction false} FirstStays(s: Parser, text: Text, i: nat)
    requires ParserOk(s) && i < |s.items| && s.items[i].value.Some?
    ensures FeedAll(s, text).items[i] == s.items[i]
    decreases |text|
  {
    if text != [] {
      FeedStays(s, text[0], i);
      FirstStays(Feed(s, text[0]), text[1..], i);
    }
  }

  lemma {:induction false} FeedStays(s: Parser, ch: char, i: nat)
    requires ParserOk(s) && i < |s.items| && s.items[i].value.Some?
    ensures Feed(s, ch).items[i] == s.items[i]
    decreases Rank(s.mode)
  {
    TurnStays(s, ch, i);
    if !Turn(s, ch).1 {
      FeedStays(Turn(s, ch).0, ch, i);
    }
  }

  lemma TurnStays(s: Parser, ch: char, i: nat)
    requires ParserOk(s) && i < |s.items| && s.items[i].value.Some?
    ensures i < |Turn(s, ch).0.items| && Turn(s, ch).0.items[i] == s.items[i]
  {
  }

  /** A state between two characters: no turn is left half done. */
  predicate Settled(s: Parser) {
    s.mode != Newline && (s.mode == Sep ==> s.item.Some?)
  }

  lemma {:induction false} FeedSettles(s: Parser, ch: char)
    requires ParserOk(s)
    ensures Settled(Feed(s, ch))
    decreases Rank(s.mode)
  {
    var (t, consumed) := Turn(s, ch);
    if !consumed {
      FeedSettles(t, ch);
    }
  }

  /** The end of a line ends the item being read. */
  lemma LineEnds(s: Parser)
    requires ParserOk(s) && Settled(s)
    ensures var t := Feed(s, '\n'); t.mode == Initial && t.tok == [] && t.item == None && SameKeys(t.items, s.items)
  {
    var t := Turn(s, '\n').0;
    assert t.mode == Newline && Feed(s, '\n') == Feed(t, '\n');
  }

  lemma {:induction false} FeedAllSettles(s: Parser, text: Text)
    requires ParserOk(s) && Settled(s)
    ensures Settled(FeedAll(s, text)) && SameKeys(FeedAll(s, text).items, s.items)
    decreases |text|
  {
    if text != [] {
      FeedSettles(s, text[0]);
      FeedKeys(s, text[0]);
      FeedAllSettles(Feed(s, text[0]), text[1..]);
    }
  }

  lemma {:induction false} FeedKeys(s: Parser, ch: char)
    requires ParserOk(s)
    ensures SameKeys(Feed(s, ch).items, s.items)
    decreases Rank(s.mode)
  {
    var (t, consumed) := Turn(s, ch);
    if !consumed {
      FeedKeys(t, ch);
    }
  }

  /** The parser state apart from the values read so far. */
  predicate SameBut(s: Parser, t: Parser) {
    s.mode == t.mode && s.tok == t.tok && s.item == t.item && SameKeys(s.items, t.items)
  }

  lemma {:induction false} FeedSame(s: Parser, t: Parser, ch: char)
    requires ParserOk(s) && ParserOk(t) && SameBut(s, t)
    ensures SameBut(Feed(s, ch), Feed(t, ch))
    decreases Rank(s.mode)
  {
    TurnSame(s, t, ch);
    if !Turn(s, ch).1 {
      FeedSame(Turn(s, ch).0, Turn(t, ch).0, ch);
    }
  }

  lemma TurnSame(s: Parser, t: Parser, ch: char)
    requires ParserOk(s) && ParserOk(t) && SameBut(s, t)
    ensures SameBut(Turn(s, ch).0, Turn(t, ch).0) && Turn(s, ch).1 == Turn(t, ch).1
  {
    LookupKeys(s.items, t.items, CString(s.tok));
  }

  lemma {:induction false} FeedAllSame(s: Parser, t: Parser, text: Text)
    requires ParserOk(s) && ParserOk(t) && SameBut(s, t)
    ensures SameBut(FeedAll(s, text), FeedAll(t, text))
    decreases |text|
  {
    if text != [] {
      FeedSame(s, t, text[0]);
      FeedAllSame(Feed(s, text[0]), Feed(t, text[0]), text[1..]);
    }
  }

  /** After whole lines the parser is as at the start, but for the values read. */
  lemma WholeLines(c: seq<Item>, lines: Text)
    requires lines != [] ==> lines[|lines| - 1] == '\n'
    ensures SameBut(FeedAll(Parser(Initial, [], None, c), lines), Parser(Initial, [], None, c))
  {
    if lines != [] {
      SplitLast(lines);
      LastLineEnds(Parser(Initial, [], None, c), lines[..|lines| - 1], lines);
    }
  }

  lemma SplitLast(text: Text)
    requires text != []
    ensures text == text[..|text| - 1] + [text[|text| - 1]]
  {
  }

  lemma LastLineEnds(s: Parser, text: Text, line: Text)
    requires ParserOk(s) && Settled(s) && line == text + ['\n']
    ensures SameBut(FeedAll(s, line), Parser(Initial, [], None, s.items))
  {
    var t := FeedAll(s, text);
    FeedSplit(s, text, ['\n']);
    FeedOne(t, '\n');
    FeedAllSettles(s, text);
    LineEnds(t);
  }

  /**
   A value that is there is kept, whatever the file says, except at the very end: it is replaced exactly
   if the file does not end with a newline and its last line has led to that item.
   */
  lemma ValueKept(c: seq<Item>, lines: Text, last: Text, i: nat)
    requires i < |c| && c[i].value.Some? && (lines != [] ==> lines[|lines| - 1] == '\n')
    ensures var f := FeedAll(Parser(Initial, [], None, c), last);
      Loaded(c, lines + last)[i] == if f.item == Some(i) then c[i].(value := Some(CString(f.tok))) else c[i]
  {
    var s := Parser(Initial, [], None, c);
    var t := FeedAll(s, lines);
    WholeLines(c, lines);
    FeedSplit(s, lines, last);
    FeedAllSame(t, s, last);
    FirstStays(s, lines, i);
    FirstStays(t, last, i);
  }

  /** In particular it is kept if the file ends with a newline. */
  lemma ValueKeptByLines(c: seq<Item>, lines: Text, i: nat)
    requires i < |c| && c[i].value.Some? && (lines != [] ==> lines[|lines| - 1] == '\n')
    ensures Loaded(c, lines)[i] == c[i]
  {
    assert lines + [] == lines;
    ValueKept(c, lines, [], i);
  }

  /** A file of one unterminated line replaces a value; with the newline it would not. */
  lemma Unterminated()
    ensures var c := [Item("a", "", None), Item("b", "", Some("1"))];
      Loaded(c, "b=2")[1].value == Some("2") && Loaded(c, "b=2\n")[1].value == Some("1")
  {
    var c := [Item("a", "", None), Item("b", "", Some("1"))];
    var s := Parser(Initial, [], None, c);
    var s1 := s.(mode := Unquoted, tok := "b");
    assert Feed(s, 'b') == s1;
    assert CString("b") == "b" by {
      PlainCString("b");
    }
    assert Lookup(c, "b") == 1 by {
      assert c[1].key == "b" && c[0].key != "b";
    }
    assert Turn(s1, '=') == (s1.(mode := Sep), false);
    var s2 := Parser(Initial, [], Some(1), c);
    assert Feed(s1, '=') == s2;
    var s3 := s2.(mode := Unquoted, tok := "2");
    assert Feed(s2, '2') == s3;
    PlainCString("2");
    var text := "b=2";
    assert text[1..] == "=2" && text[1..][1..] == "2" && "2"[1..] == [];
    assert FeedAll(s3, []) == s3;
    assert FeedAll(s2, "2") == s3;
    assert FeedAll(s1, "=2") == s3;
    ValueKept(c, [], text, 1);
    assert [] + text == text;
    assert FeedAll(s, text) == s3;
    ValueKeptByLines(c, "b=2\n", 1);
  }

  // ---- what else a file may hold ----

  predicate InLine(s: Text) {
    forall i :: 0 <= i < |s| ==> s[i] != '\n'
  }

  /** Inside a comment everything up to the end of the line is passed over. */
  lemma {:induction false} FeedComment(s: Parser, text: Text)
    requires ParserOk(s) && s.mode == Comment && InLine(text)
    ensures FeedAll(s, text) == s
    decreases |text|
  {
    if text != [] {
      assert Feed(s, text[0]) == s;
      FeedComment(s, text[1..]);
    }
  }

  /** A line of comment leaves the table as it is, even if it looks like an assignment. */
  lemma CommentLine(c: seq<Item>, text: Text)
    requires InLine(text)
    ensures var s := Parser(Initial, [], None, c); FeedAll(s, "#" + text + "\n") == s
  {
    var s := Parser(Initial, [], None, c);
    var s1 := s.(mode := Comment);
    assert Feed(s, '#') == s1;
    FeedOne(s, '#');
    FeedComment(s1, text);
    assert Turn(s1, '\n') == (s1.(mode := Newline), false);
    assert Feed(s1, '\n') == s;
    FeedOne(s1, '\n');
    FeedSplit(s, "#", text);
    FeedSplit(s, "#" + text, "\n");
  }

  /** Between quotes every character stands for itself, spaces, '#' and '=' included. */
  predicate Quotable(v: Text) {
    |v| <= TOKSIZE - 1 && InLine(v) && forall i :: 0 <= i < |v| ==> v[i] != '"' && v[i] != '\0'
  }

  lemma {:induction false} FeedQuoted(s: Parser, v: Text, k: nat)
    requires ParserOk(s) && s.mode == Quoted && s.tok == [] && Quotable(v) && k <= |v|
    ensures FeedAll(s, v[..k]) == s.(tok := v[..k])
  {
    if k == 0 {
      assert v[..0] == [];
    } else {
      FeedQuoted(s, v, k - 1);
      assert v[..k] == v[..k - 1] + [v[k - 1]];
      FeedSplit(s, v[..k - 1], [v[k - 1]]);
      FeedOne(FeedAll(s, v[..k - 1]), v[k - 1]);
    }
  }

  lemma {:induction false} QuotableCString(v: Text)
    requires forall i :: 0 <= i < |v| ==> v[i] != '\0'
    ensures CString(v) == v
  {
    if v != [] {
      QuotableCString(v[1..]);
    }
  }

  /** The rest of a line whose key has been read: a quoted value becomes the value of its item. */
  lemma QuotedValue(c: seq<Item>, i: nat, v: Text)
    requires i < |c| && c[i].value == None && Quotable(v)
    ensures FeedAll(Parser(Initial, [], Some(i), c), "\"" + v + "\"\n") ==
            Parser(Initial, [], None, c[i := c[i].(value := Some(v))])
  {
    var s := Parser(Initial, [], Some(i), c);
    var s1 := s.(mode := Quoted);
    assert Feed(s, '"') == s1;
    FeedOne(s, '"');
    FeedQuoted(s1, v, |v|);
    assert v[..|v|] == v;
    var s2, s3 := s1.(tok := v), s.(tok := v);
    assert Feed(s2, '"') == s3;
    FeedOne(s2, '"');
    QuotableCString(v);
    assert Turn(s3, '\n') == (s3.(mode := Newline), false);
    FeedOne(s3, '\n');
    FeedSplit(s, "\"", v);
    FeedSplit(s, "\"" + v, "\"");
    FeedSplit(s, "\"" + v + "\"", "\n");
    assert "\"" + v + "\"\n" == "\"" + v + "\"" + "\n";
  }

  /** After a second '=' the rest of the line is passed over. */
  lemma {:induction false} FeedSurplus(s: Parser, text: Text)
    requires ParserOk(s) && s.mode == Sep && s.item.Some? && InLine(text)
    ensures FeedAll(s, text) == s
    decreases |text|
  {
    if text != [] {
      assert Feed(s, text[0]) == s;
      FeedSurplus(s, text[1..]);
    }
  }

  /** An unknown key and its '=' are forgotten: the rest of the line is read as a line of its own. */
  lemma UnknownKey(c: seq<Item>, key: Text, rest: Text)
    requires key != [] && Plain(key) && Lookup(c, key) == |c|
    ensures var s := Parser(Initial, [], None, c); FeedAll(s, key + "=" + rest) == FeedAll(s, rest)
  {
    var s := Parser(Initial, [], None, c);
    FeedWord(s, key, |key|);
    assert key[..|key|] == key;
    var s1 := s.(mode := Unquoted, tok := key);
    PlainCString(key);
    assert Turn(s1, '=') == (s1.(mode := Sep), false);
    assert Feed(s1, '=') == s;
    FeedOne(s1, '=');
    FeedSplit(s, key, "=");
    FeedSplit(s, key + "=", rest);
  }

  /** So its line changes nothing if its value is a plain word. */
  lemma UnknownLine(c: seq<Item>, key: Text, v: Text)
    requires key != [] && Plain(key) && Plain(v) && Lookup(c, key) == |c|
    ensures var s := Parser(Initial, [], None, c); FeedAll(s, key + "=" + (v + "\n")) == s
  {
    var s := Parser(Initial, [], None, c);
    UnknownKey(c, key, v + "\n");
    FeedWord(s, v, |v|);
    assert v[..|v|] == v;
    var s1 := FeedAll(s, v);
    assert Turn(s1, '\n') == (s1.(mode := Newline), false);
    FeedOne(s1, '\n');
    FeedSplit(s, v, "\n");
  }

  /** But with a known key in the place of the value, that key is set. */
  lemma UnknownThenKnown(c: seq<Item>, key: Text, x: Item, i: nat)
    requires key != [] && Plain(key) && Lookup(c, key) == |c|
    requires PlainItem(x) && Ascending(c) && i < |c| && c[i].key == x.key && c[i].value == None
    ensures var s := Parser(Initial, [], None, c);
      FeedAll(s, key + "=" + Line(x)) == s.(items := c[i := c[i].(value := Some(Effective(x)))])
  {
    UnknownKey(c, key, Line(x));
    FeedLine(c, x, i);
  }
}
