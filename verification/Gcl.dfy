/** The configuration table of common/gcl.c: searching, setting, reading and writing. */
module Gcl {
  import opened Wrappers
  import opened Sequences
  import opened GclText
  import opened GclLines

  /** errno values. */
  const ENOENT: int := 2
  const EINVAL: int := 22

  class Table {
    var items: seq<Item>

    constructor (items: seq<Item>)
      ensures this.items == items
    {
      this.items := items;
    }

    /**
     ascend: checks the order of the keys, and clears each value as it goes.  It does not come to the
     last value.
     */
    method Ascend() returns (ok: bool)
      requires |items| >= 2
      modifies this
      ensures ok == Ascending(old(items)) && SameKeys(items, old(items))
      ensures ok ==> items == Cleared(old(items))
      ensures !ok ==> exists i :: 0 <= i < |items| - 1 && FirstBad(old(items), i) && items == ClearedTo(old(items), i)
    {
      ghost var was := items;
      var n := |items|;
      var i := 0;
      while i < n - 1
        invariant 0 <= i <= n - 1 && |items| == n
        invariant forall j :: 0 <= j < n ==> items[j] == was[j].(value := if j < i then None else was[j].value)
        invariant forall j :: 0 <= j < i ==> Less(was[j].key, was[j + 1].key)
      {
        if !Less(items[i].key, items[i + 1].key) {
          assert FirstBad(was, i) && items == ClearedTo(was, i);
          return false;
        }
        items := items[i := items[i].(value := None)];
        i := i + 1;
      }
      items := items[i - 1 := items[i - 1].(value := None)];
      return true;
    }

    /** The first key that is not below the next one. */
    static ghost predicate FirstBad(c: seq<Item>, i: nat)
      requires i + 1 < |c|
    {
      !Less(c[i].key, c[i + 1].key) && forall j :: 0 <= j < i ==> Less(c[j].key, c[j + 1].key)
    }

    static function ClearedTo(c: seq<Item>, i: nat): (r: seq<Item>)
      ensures |r| == |c|
    {
      seq(|c|, j requires 0 <= j < |c| => c[j].(value := if j < i then None else c[j].value))
    }

    static function Cleared(c: seq<Item>): (r: seq<Item>)
      ensures |r| == |c|
    {
      seq(|c|, j requires 0 <= j < |c| => c[j].(value := if j < |c| - 1 then None else c[j].value))
    }

    /** search: by halving; it finds what a look at every item would. */
    method Search(key: Text) returns (i: nat)
      requires Ascending(items)
      ensures i == Lookup(items, key)
    {
      var l: int, r: int := 0, |items| - 1;
      ghost var at := Lookup(items, key);
      while l <= r
        invariant 0 <= l <= |items| && -1 <= r < |items| && l <= r + 1
        invariant at == |items| || l <= at <= r
        decreases r - l
      {
        var m := (l + r) / 2;
        Sides(items, m, key);
        if Less(key, items[m].key) {
          r := m - 1;
        } else if Less(items[m].key, key) {
          l := m + 1;
        } else {
          return m;
        }
      }
      return |items|;
    }

    /** What one comparison says about where the key can be. */
    static lemma Sides(c: seq<Item>, m: nat, key: Text)
      requires Ascending(c) && m < |c|
      ensures var at := Lookup(c, key);
        && (Less(key, c[m].key) ==> at == |c| || at < m)
        && (Less(c[m].key, key) ==> at == |c| || at > m)
        && (!Less(key, c[m].key) && !Less(c[m].key, key) ==> at == m)
    {
      var at := Lookup(c, key);
      LessTotal(key, c[m].key);
      if at < |c| && at != m {
        if at < m {
          AscendingFar(c, at, m);
        } else {
          AscendingFar(c, m, at);
        }
      }
      if key == c[m].key {
        LookupAscending(c, m);
      }
    }

    /** gcl_get. */
    method Get(key: Text) returns (v: Option<Text>)
      requires Ascending(items)
      ensures v == Got(items, key)
    {
      var i := Search(key);
      if i == |items| {
        return None;
      }
      return Some(if items[i].value.Some? then items[i].value.value else items[i].dval);
    }

    /** gcl_set: 1 if the value was stored, 0 if it was there already, -1 for an unknown key. */
    method Set(key: Text, value: Text) returns (rc: int)
      requires Ascending(items)
      modifies this
      ensures Ascending(items) && SameKeys(items, old(items))
      ensures rc == -1 <==> Got(old(items), key) == None
      ensures rc == -1 ==> items == old(items)
      ensures rc != -1 ==> rc == (if old(items)[Lookup(old(items), key)].value == Some(value) then 0 else 1)
      ensures forall k :: Got(items, k) == if k == key && rc != -1 then Some(value) else Got(old(items), k)
    {
      var i := Search(key);
      if i == |items| {
        return -1;
      }
      if items[i].value == Some(value) {
        return 0;
      }
      ghost var was := items;
      items := items[i := items[i].(value := Some(value))];
      forall k
        ensures Got(items, k) == if k == key then Some(value) else Got(was, k)
      {
        LookupKeys(items, was, k);
      }
      return 1;
    }

    /** gcl_reset: back to the default. */
    method Reset(key: Text) returns (rc: int)
      requires Ascending(items)
      modifies this
      ensures Ascending(items) && SameKeys(items, old(items))
      ensures rc == -1 <==> Got(old(items), key) == None
      ensures rc == -1 ==> items == old(items)
      ensures rc != -1 ==> (rc == 1 <==> Got(old(items), key) != Got(items, key))
      ensures rc != -1 ==> Got(items, key) == Some(old(items)[Lookup(old(items), key)].dval)
      ensures forall k :: k != key ==> Got(items, k) == Got(old(items), k)
    {
      var i := Search(key);
      if i == |items| {
        return -1;
      }
      ghost var was := items;
      var x := items[i];
      rc := if x.value.Some? && x.value.value != x.dval then 1 else 0;
      items := items[i := x.(value := Some(x.dval))];
      forall k
        ensures Got(items, k) == if k == key then Some(x.dval) else Got(was, k)
      {
        LookupKeys(items, was, k);
      }
    }

    /** gcl_sync: what is written to the file; each line fits the buffer it is printed in. */
    method Sync() returns (text: Text)
      requires forall i :: 0 <= i < |items| ==> |Line(items[i])| < BUFSIZE
      ensures text == Printed(items)
    {
      text := "";
      var i := 0;
      while i < |items|
        invariant 0 <= i <= |items| && text == Printed(items[..i])
      {
        var x := items[i];
        assert items[..i + 1][..i] == items[..i];
        text := text + (x.key + "=" + (if x.value.Some? then x.value.value else x.dval) + "\n");
        i := i + 1;
      }
      assert items[..i] == items;
    }
  }

  /** The local variables of gcl_init while it reads a file into a table. */
  class Loader {
    const table: Table
    const tok: array<char>
    var t: nat
    var mode: Mode
    var item: Option<nat>

    ghost predicate Valid()
      reads this, table
    {
      tok.Length == TOKSIZE && t <= TOKSIZE - 1 && Ascending(table.items) && (item.Some? ==> item.value < |table.items|)
    }

    /** The parser state these variables hold. */
    ghost function View(): (s: Parser)
      requires Valid()
      reads this, table, tok
      ensures ParserOk(s)
    {
      Parser(mode, tok[..t], item, table.items)
    }

    constructor (table: Table)
      requires Ascending(table.items)
      ensures Valid() && fresh(tok) && this.table == table && View() == Parser(Initial, [], None, table.items)
    {
      this.table := table;
      tok := new char[TOKSIZE](_ => '\0');
      t, mode, item := 0, Initial, None;
    }

    /** `if (t < limit) *t++ = *p`. */
    method Keep(ch: char)
      requires Valid()
      modifies this`t, tok
      ensures Valid() && tok[..t] == Kept(old(tok[..t]), ch)
    {
      ghost var was := tok[..t];
      if t < TOKSIZE - 1 {
        tok[t] := ch;
        t := t + 1;
        assert tok[..t] == was + [ch];
      }
    }

    /** The token as a string, ended with a NUL in place. */
    method Token() returns (s: Text)
      requires Valid()
      modifies tok
      ensures tok[..t] == old(tok[..t]) && s == CString(tok[..t])
    {
      tok[t] := '\0';
      CStringEnd(tok[..], t);
      assert tok[..][..t] == tok[..t];
      s := CString(tok[..]);
    }

    /** GCL_HANDLE_SEP. */
    method HandleSep(ch: char) returns (consumed: bool)
      requires Valid() && mode == Sep
      modifies this`t, this`mode, this`item, tok
      ensures Valid() && (View(), consumed) == Turn(old(View()), ch)
    {
      if item.Some? {
        if ch == '\n' {
          mode := Newline;
          return false;
        }
        return true;
      }
      if t > 0 {
        var key := Token();
        var i := table.Search(key);
        item := if i == |table.items| then None else Some(i);
        t := 0;
      }
      mode := Initial;
      return true;
    }

    /** GCL_HANDLE_NEWLINE. */
    method HandleNewline()
      requires Valid() && mode == Newline
      modifies this, tok, table
      ensures Valid() && forall ch :: (View(), true) == Turn(old(View()), ch)
    {
      if item.Some? {
        if table.items[item.value].value.None? {
          Store();
        }
        item := None;
      }
      t := 0;
      mode := Initial;
    }

    /** The token, or the empty string, becomes the item's value. */
    method Store()
      requires Valid() && item.Some?
      modifies tok, table
      ensures Valid() && table.items == Stored(old(View())) && tok[..t] == old(tok[..t])
    {
      var v := "";
      if t > 0 {
        v := Token();
      }
      table.items := table.items[item.value := table.items[item.value].(value := Some(v))];
    }

    /** One turn of the loop over the characters read. */
    method Step(ch: char) returns (consumed: bool)
      requires Valid()
      modifies this, tok, table
      ensures Valid() && (View(), consumed) == Turn(old(View()), ch)
    {
      consumed := true;
      match mode {
        case Initial =>
          if ch == '#' {
            mode := Comment;
          } else if ch == '"' {
            mode := Quoted;
          } else if ch == '\n' {
            mode, consumed := Newline, false;
          } else if ch == '=' {
            mode, consumed := Sep, false;
          } else if !IsSpace(ch) {
            Keep(ch);
            mode := Unquoted;
          }
        case Comment =>
          if ch == '\n' {
            mode, consumed := Newline, false;
          }
        case Quoted =>
          if ch == '"' {
            mode := Initial;
          } else if ch == '\n' {
            mode, consumed := Newline, false;
          } else {
            Keep(ch);
          }
        case Unquoted =>
          if ch == '#' {
            mode := Comment;
          } else if ch == '\n' {
            mode, consumed := Newline, false;
          } else if ch == '=' {
            mode, consumed := Sep, false;
          } else if IsSpace(ch) {
            mode := Initial;
          } else {
            Keep(ch);
          }
        case Sep =>
          consumed := HandleSep(ch);
        case Newline =>
          HandleNewline();
      }
    }

    /** The loop over one piece of the file. */
    method Piece(buf: Text)
      requires Valid()
      modifies this, tok, table
      ensures Valid() && View() == FeedAll(old(View()), buf)
    {
      var p := 0;
      ghost var end := FeedAll(View(), buf);
      assert buf[0..] == buf;
      while p < |buf|
        invariant 0 <= p <= |buf| && Valid() && FeedAll(View(), buf[p..]) == end
        decreases |buf| - p, Rank(mode)
      {
        FeedTurnAt(View(), buf, p);
        var consumed := Step(buf[p]);
        if consumed {
          p := p + 1;
        }
      }
      assert buf[p..] == [];
    }

    /** The end of the file. */
    method Finish()
      requires Valid()
      modifies tok, table
      ensures table.items == Ended(old(View()))
    {
      if item.Some? {
        Store();
      }
    }
  }

  /**
   gcl_init on a file that fread delivers in `pieces`.  The result depends on the whole text only.
   A table whose keys are not in order, or a missing file, is an error.
   */
  method Init(c: Table, present: bool, pieces: seq<Text>) returns (rc: int)
    requires |c.items| >= 2
    modifies c
    ensures rc == (if !Ascending(old(c.items)) then EINVAL else if !present then ENOENT else 0)
    ensures rc == ENOENT ==> c.items == Table.Cleared(old(c.items))
    ensures rc == 0 ==> c.items == AfterFile(Table.Cleared(old(c.items)), Joined(pieces))
  {
    ghost var was := c.items;
    var ok := c.Ascend();
    if !ok {
      return EINVAL;
    }
    if !present {
      return ENOENT;
    }
    ghost var start := Parser(Initial, [], None, c.items);
    var l := new Loader(c);
    var k := 0;
    while k < |pieces|
      invariant 0 <= k <= |pieces| && l.Valid() && l.table == c && fresh(l) && fresh(l.tok)
      invariant l.View() == FeedAll(start, Joined(pieces[..k]))
    {
      FeedSplit(start, Joined(pieces[..k]), pieces[k]);
      assert pieces[..k + 1] == pieces[..k] + [pieces[k]];
      JoinedLast(pieces[..k], pieces[k]);
      l.Piece(pieces[k]);
      k := k + 1;
    }
    assert pieces[..k] == pieces;
    l.Finish();
    LoadedIs(Table.Cleared(was), Joined(pieces));
    return 0;
  }

  /** Saving a table and loading the file into a new table of the same keys: every key has its value again. */
  method SaveAndLoad(c: Table, d: Table, cut: Text -> seq<Text>) returns (rc: int)
    requires c != d && |c.items| >= 2 && Ascending(c.items) && d.items == Restored(c.items, 0)
    requires forall i :: 0 <= i < |c.items| ==> PlainItem(c.items[i])
    requires forall s: Text :: Joined(cut(s)) == s
    modifies d
    ensures rc == 0 && forall key :: Got(d.items, key) == Got(c.items, key)
  {
    var text := c.Sync();
    assert Table.Cleared(d.items) == d.items;
    rc := Init(d, true, cut(text));
    LoadedIs(Restored(c.items, 0), text);
    forall key
      ensures Got(d.items, key) == Got(c.items, key)
    {
      RoundTrip(c.items, key);
    }
  }
}
