// The splitters for commands and arguments of src/bofwebapp.cpp.

module CommandSplit {
  import opened Words

  // ---- S_SplitCmdAndArg: the pattern (\w+)\((.*?)\) on a full match ----

  predicate IsWord(c: char) {
    'a' <= c <= 'z' || 'A' <= c <= 'Z' || '0' <= c <= '9' || c == '_'
  }

  predicate AllWord(s: string) {
    forall i :: 0 <= i < |s| ==> IsWord(s[i])
  }

  /** A dot matches anything but a line break. */
  predicate OneLine(s: string) {
    forall i :: 0 <= i < |s| ==> s[i] != '\n' && s[i] != '\r'
  }

  function WordRun(s: string): (n: nat)
    ensures n <= |s| && AllWord(s[..n])
    ensures n < |s| ==> !IsWord(s[n])
  {
    if s == "" || !IsWord(s[0]) then 0 else
      var n := 1 + WordRun(s[1..]);
      assert forall i :: 1 <= i < n ==> s[..n][i] == s[1..][..n - 1][i - 1];
      n
  }

  datatype Call = Call(cmd: string, arg: string)

  function CmdAndArg(s: string): Option<Call> {
    var n := WordRun(s);
    if n == 0 || |s| < n + 2 || s[n] != '(' || s[|s| - 1] != ')' || !OneLine(s[n + 1..|s| - 1]) then None
    else Some(Call(s[..n], s[n + 1..|s| - 1]))
  }

  ghost predicate Spelled(s: string, cmd: string, arg: string) {
    s == cmd + "(" + arg + ")" && cmd != "" && AllWord(cmd) && OneLine(arg)
  }

  lemma {:induction false} WordRunIs(cmd: string, rest: string)
    requires AllWord(cmd) && rest != "" && !IsWord(rest[0])
    ensures WordRun(cmd + rest) == |cmd|
  {
    if cmd == "" {
      assert cmd + rest == rest;
    } else {
      assert (cmd + rest)[1..] == cmd[1..] + rest;
      WordRunIs(cmd[1..], rest);
    }
  }

  lemma SpelledIsSplit(s: string, cmd: string, arg: string)
    requires Spelled(s, cmd, arg)
    ensures CmdAndArg(s) == Some(Call(cmd, arg))
  {
    assert s == cmd + ("(" + arg + ")");
    WordRunIs(cmd, "(" + arg + ")");
    assert s[..|cmd|] == cmd && s[|cmd| + 1..|s| - 1] == arg;
  }

  /**
   * Accepted are exactly the texts of word characters, an opening parenthesis, any text without
   * line breaks and a closing one at the end, and each can be read in only one way.
   */
  lemma CommandLanguage(s: string, cmd: string, arg: string)
    ensures CmdAndArg(s) == Some(Call(cmd, arg)) <==> Spelled(s, cmd, arg)
    ensures forall c, a :: Spelled(s, cmd, arg) && Spelled(s, c, a) ==> c == cmd && a == arg
  {
    if CmdAndArg(s) == Some(Call(cmd, arg)) {
      assert s == s[..|cmd|] + [s[|cmd|]] + s[|cmd| + 1..|s| - 1] + [s[|s| - 1]];
    }
    forall c, a | Spelled(s, c, a) ensures CmdAndArg(s) == Some(Call(c, a)) {
      SpelledIsSplit(s, c, a);
    }
  }

  /**
   * The command is the text before the parenthesis and the argument the text inside; the outputs
   * keep their incoming values when the text has no such form.
   */
  method SplitCmdAndArg(s: string, cmd0: string, arg0: string) returns (ok: bool, cmd: string, arg: string)
    ensures ok <==> exists c, a :: Spelled(s, c, a)
    ensures ok ==> Spelled(s, cmd, arg)
    ensures !ok ==> cmd == cmd0 && arg == arg0
  {
    ok, cmd, arg := false, cmd0, arg0;
    var m := CmdAndArg(s);
    if m.Some? {
      ok, cmd, arg := true, m.value.cmd, m.value.arg;
      CommandLanguage(s, cmd, arg);
    }
    forall c, a | Spelled(s, c, a) ensures m.Some? {
      SpelledIsSplit(s, c, a);
    }
  }

  // ---- S_SplitArg ----

  const COMMA := ','

  /** All items between commas, so always at least one. */
  function Items(s: string): (items: seq<string>)
    ensures items != []
  {
    if s == "" then [""] else
      var (c, items) := (s[|s| - 1], Items(s[..|s| - 1]));
      if c == COMMA then items + [""] else Longer(items, [c])
  }

  /** More text at the end of the last item. */
  function Longer(items: seq<string>, text: string): (longer: seq<string>)
    requires items != []
    ensures longer != []
  {
    items[..|items| - 1] + [items[|items| - 1] + text]
  }

  lemma LongerTwice(items: seq<string>, text: string, more: string)
    requires items != []
    ensures Longer(Longer(items, text), more) == Longer(items, text + more)
    ensures Longer(items, "") == items
  {
    var last := items[|items| - 1];
    assert last + text + more == last + (text + more) && last + "" == last;
  }

  function Trimmed(items: seq<string>): seq<string> {
    if items != [] && items[|items| - 1] == "" then items[..|items| - 1] else items
  }

  predicate CommaFree(s: string) {
    forall i :: 0 <= i < |s| ==> s[i] != COMMA
  }

  lemma ItemsPush(s: string, c: char)
    ensures Items(s + [c]) == if c == COMMA then Items(s) + [""] else Longer(Items(s), [c])
  {
    assert (s + [c])[..|s|] == s;
  }

  lemma {:induction false} ItemsGrow(s: string, item: string)
    requires CommaFree(item)
    ensures Items(s + item) == Longer(Items(s), item)
  {
    LongerTwice(Items(s), "", "");
    hide Items, Longer;
    if item == "" {
      assert s + item == s;
    } else {
      var (front, c) := (item[..|item| - 1], item[|item| - 1]);
      ItemsGrow(s, front);
      assert s + item == s + front + [c] && front + [c] == item;
      ItemsPush(s + front, c);
      LongerTwice(Items(s), front, [c]);
    }
  }

  /** What `std::getline` takes from `pos`: up to a comma or the end. */
  method GetLine(s: string, pos: nat) returns (end: nat)
    requires pos <= |s|
    ensures pos <= end <= |s| && CommaFree(s[pos..end]) && (end < |s| ==> s[end] == COMMA)
  {
    end := pos;
    while end < |s| && s[end] != COMMA
      invariant pos <= end <= |s| && forall i :: pos <= i < end ==> s[i] != COMMA
    {
      end := end + 1;
    }
  }

  lemma OneRead(s: string, pos: nat, end: nat, items: seq<string>)
    requires pos <= end <= |s| && CommaFree(s[pos..end]) && Items(s[..pos]) == items + [""]
    ensures Items(s[..end]) == items + [s[pos..end]]
    ensures end < |s| && s[end] == COMMA ==> Items(s[..end + 1]) == items + [s[pos..end]] + [""]
  {
    hide Items, CommaFree;
    assert s[..pos] + s[pos..end] == s[..end];
    ItemsGrow(s[..pos], s[pos..end]);
    LongerLast(items, s[pos..end]);
    if end < |s| {
      assert s[..end + 1] == s[..end] + [s[end]];
      ItemsPush(s[..end], s[end]);
    }
  }

  lemma LongerLast(items: seq<string>, text: string)
    ensures Longer(items + [""], text) == items + [text]
  {
    assert "" + text == text;
  }

  /** The stream fails when nothing is left to read. */
  method SplitArg(s: string) returns (rts: seq<string>)
    ensures rts == Trimmed(Items(s))
  {
    rts := [];
    var pos := 0;
    assert Items(s[..0]) == [""];
    hide Items;
    while pos < |s|
      invariant pos <= |s| && Items(s[..pos]) == rts + [""]
    {
      var end := GetLine(s, pos);
      OneRead(s, pos, end, rts);
      rts := rts + [s[pos..end]];
      if end == |s| {
        assert s[..end] == s;
        return;
      }
      pos := end + 1;
    }
    assert s[..pos] == s;
  }

  function Joined(items: seq<string>): string {
    if items == [] then ""
    else if |items| == 1 then items[0]
    else Joined(items[..|items| - 1]) + [COMMA] + items[|items| - 1]
  }

  lemma ItemsAppend(s: string, item: string)
    requires CommaFree(item)
    ensures Items(s + [COMMA] + item) == Items(s) + [item]
  {
    hide Items;
    ItemsPush(s, COMMA);
    ItemsGrow(s + [COMMA], item);
    LongerLast(Items(s), item);
  }

  lemma {:induction false} ItemsOfJoined(items: seq<string>)
    requires items != [] && forall i :: 0 <= i < |items| ==> CommaFree(items[i])
    ensures Items(Joined(items)) == items
  {
    hide Items, CommaFree;
    var last := items[|items| - 1];
    if |items| == 1 {
      ItemsOne(last);
    } else {
      var front := items[..|items| - 1];
      ItemsOfJoined(front);
      ItemsAppend(Joined(front), last);
    }
  }

  lemma ItemsOne(item: string)
    requires CommaFree(item)
    ensures Items(item) == [item]
  {
    ItemsGrow("", item);
    assert "" + item == item;
  }

  /** Splitting inverts joining, for items without commas, exactly if the list is empty or ends in text. */
  lemma SplitArgInvertsJoin(items: seq<string>)
    requires forall i :: 0 <= i < |items| ==> CommaFree(items[i])
    ensures Trimmed(Items(Joined(items))) == items <==> items == [] || items[|items| - 1] != ""
  {
    if items != [] {
      ItemsOfJoined(items);
    }
  }
}
