/**
 Escaping and splitting on '+'.

 `EscapePlus` writes "\+" for every '+'; `SplitUnescapePlus` cuts a reference at its unescaped
 '+' signs. The two are inverse exactly on the words whose backslashes pair up.
 */
module PlusEscape {

  datatype Result<+T> = Ok(value: T) | Err(error: Error)

  datatype Error =
    | UnterminatedEscape
    | InvalidReference
    | InvalidName
    | UnresolvedImport
    | AbsoluteInRemote
    | EmptyImport
    | UnsupportedImport
    | ImportNeedsAlias
    | InvalidAlias
    | AliasExists

  // ----- The scanner -----

  /** The loop's variables: the pending escape, the finished words and the current word. */
  datatype Scan = Scan(escape: bool, ret: seq<string>, word: string)

  const BEGIN := Scan(false, [], "")

  function Feed(st: Scan, c: char): Scan {
    if st.escape then Scan(false, st.ret, st.word + (if c != '+' then "\\" else "") + [c])
    else if c == '\\' then st.(escape := true)
    else if c == '+' then Scan(false, st.ret + [st.word], "")
    else st.(word := st.word + [c])
  }

  function FeedAll(st: Scan, s: string): Scan {
    if s == "" then st else Feed(FeedAll(st, s[..|s| - 1]), s[|s| - 1])
  }

  function Finish(st: Scan): Result<seq<string>> {
    if st.escape then Err(UnterminatedEscape)
    else if st.word == "" then Ok(st.ret)
    else Ok(st.ret + [st.word])
  }

  function Words(s: string): Result<seq<string>> {
    Finish(FeedAll(BEGIN, s))
  }

  method SplitUnescapePlus(str: string) returns (r: Result<seq<string>>)
    ensures r == Words(str)
  {
    var escape := false;
    var ret: seq<string> := [];
    var word := "";
    for i := 0 to |str|
      invariant FeedAll(BEGIN, str[..i]) == Scan(escape, ret, word)
    {
      var c := str[i];
      assert str[..i + 1][..i] == str[..i];
      if escape {
        if c != '+' {
          word := word + "\\";
        }
        word := word + [c];
        escape := false;
      } else {
        match c
        case '\\' => escape := true;
        case '+' => ret, word := ret + [word], "";
        case _ => word := word + [c];
      }
    }
    assert str[..|str|] == str;
    if escape {
      return Err(UnterminatedEscape);
    }
    if |word| > 0 {
      ret := ret + [word];
    }
    return Ok(ret);
  }

  function EscapePlus(s: string): string {
    if s == "" then ""
    else EscapePlus(s[..|s| - 1]) + (if s[|s| - 1] == '+' then "\\+" else [s[|s| - 1]])
  }

  // ----- Which words survive -----

  /** Length of the run of backslashes at the end of `s`. */
  function TrailingBackslashes(s: string): nat {
    if s == "" || s[|s| - 1] != '\\' then 0 else 1 + TrailingBackslashes(s[..|s| - 1])
  }

  /** Backslashes in front of every '+' come in pairs. */
  predicate PlusSafe(s: string) {
    forall i :: 0 <= i < |s| && s[i] == '+' ==> TrailingBackslashes(s[..i]) % 2 == 0
  }

  /** Every run of backslashes that is followed by '+' or ends the word has even length. */
  predicate Escapable(s: string) {
    PlusSafe(s) && TrailingBackslashes(s) % 2 == 0
  }

  lemma {:induction false} FeedAllAppend(st: Scan, a: string, b: string)
    ensures FeedAll(st, a + b) == FeedAll(FeedAll(st, a), b)
  {
    if b == "" {
      assert a + b == a;
    } else {
      assert (a + b)[..|a + b| - 1] == a + b[..|b| - 1];
      FeedAllAppend(st, a, b[..|b| - 1]);
    }
  }

  lemma FeedSnoc(st: Scan, a: string, c: char)
    ensures FeedAll(st, a + [c]) == Feed(FeedAll(st, a), c)
  {
    assert (a + [c])[..|a|] == a;
  }

  lemma {:induction false} EscapeAppend(a: string, b: string)
    ensures EscapePlus(a + b) == EscapePlus(a) + EscapePlus(b)
  {
    if b == "" {
      assert a + b == a;
    } else {
      assert (a + b)[..|a + b| - 1] == a + b[..|b| - 1];
      EscapeAppend(a, b[..|b| - 1]);
    }
  }

  lemma {:induction false} EscapePlain(a: string)
    requires '+' !in a
    ensures EscapePlus(a) == a
  {
    if a != "" {
      EscapePlain(a[..|a| - 1]);
      assert a == a[..|a| - 1] + [a[|a| - 1]];
    }
  }

  lemma PlusSafePrefix(s: string, n: nat)
    requires n <= |s| && PlusSafe(s)
    ensures PlusSafe(s[..n])
  {
    forall i | 0 <= i < n && s[..n][i] == '+' ensures TrailingBackslashes(s[..n][..i]) % 2 == 0 {
      assert s[..n][..i] == s[..i];
    }
  }

  lemma PlusSafeSnoc(s: string, c: char)
    ensures PlusSafe(s + [c]) <==> PlusSafe(s) && (c == '+' ==> TrailingBackslashes(s) % 2 == 0)
    ensures TrailingBackslashes(s + [c]) == if c == '\\' then TrailingBackslashes(s) + 1 else 0
  {
    var t := s + [c];
    assert t[..|s|] == s;
    assert forall i :: 0 <= i <= |s| ==> t[..i] == s[..i];
    if PlusSafe(t) {
      assert t[|s|] == c;
      PlusSafePrefix(t, |s|);
    }
  }

  /** What the scanner has seen after the escaped form of a word. */
  function AfterEscaped(s: string): Scan {
    if TrailingBackslashes(s) % 2 == 0 then Scan(false, [], s) else Scan(true, [], s[..|s| - 1])
  }

  lemma AfterEscapedPlain(a: string, c: char)
    requires c != '+'
    ensures Feed(AfterEscaped(a), c) == AfterEscaped(a + [c])
  {
    PlusSafeSnoc(a, c);
    if TrailingBackslashes(a) % 2 == 1 {
      Resplit(a, c);
    } else {
      assert (a + [c])[..|a|] == a;
    }
  }

  lemma Resplit(a: string, c: char)
    requires a != "" && a[|a| - 1] == '\\'
    ensures a[..|a| - 1] + "\\" + [c] == a + [c]
  {
  }

  lemma AfterEscapedPlus(a: string)
    requires TrailingBackslashes(a) % 2 == 0
    ensures Feed(Feed(AfterEscaped(a), '\\'), '+') == AfterEscaped(a + ['+'])
  {
    assert AfterEscaped(a) == Scan(false, [], a);
    PlusSafeSnoc(a, '+');
    assert AfterEscaped(a + ['+']) == Scan(false, [], a + ['+']);
    assert a + "" + ['+'] == a + ['+'];
  }

  lemma {:induction false} ScanEscaped(s: string)
    requires PlusSafe(s)
    ensures FeedAll(BEGIN, EscapePlus(s)) == AfterEscaped(s)
  {
    if s != "" {
      var a, c := s[..|s| - 1], s[|s| - 1];
      assert s == a + [c];
      PlusSafeSnoc(a, c);
      ScanEscaped(a);
      var e := EscapePlus(a);
      if c == '+' {
        assert EscapePlus(s) == e + ['\\'] + ['+'];
        FeedSnoc(BEGIN, e + ['\\'], '+');
        FeedSnoc(BEGIN, e, '\\');
        AfterEscapedPlus(a);
      } else {
        FeedSnoc(BEGIN, e, c);
        AfterEscapedPlain(a, c);
      }
    }
  }

  lemma {:induction false} RetGrows(st: Scan, s: string)
    ensures st.ret <= FeedAll(st, s).ret
  {
    if s != "" {
      RetGrows(st, s[..|s| - 1]);
    }
  }

  predicate Plain(s: string) {
    '+' !in s && '\\' !in s
  }

  lemma {:induction false} FeedPlain(st: Scan, b: string)
    requires Plain(b) && !st.escape
    ensures FeedAll(st, b) == st.(word := st.word + b)
  {
    if b == "" {
      assert st.word + b == st.word;
    } else {
      FeedPlain(st, b[..|b| - 1]);
      assert b == b[..|b| - 1] + [b[|b| - 1]];
      assert st.word + b == st.word + b[..|b| - 1] + [b[|b| - 1]];
    }
  }

  /** The scan of `e + "+" + b` when `b` holds nothing special. */
  lemma ScanThenPlain(e: string, b: string)
    requires Plain(b)
    ensures var st := Feed(FeedAll(BEGIN, e), '+');
            !st.escape && FeedAll(BEGIN, e + "+" + b) == st.(word := st.word + b)
  {
    FeedSnoc(BEGIN, e, '+');
    assert e + "+" == e + ['+'];
    FeedAllAppend(BEGIN, e + "+", b);
    FeedPlain(Feed(FeedAll(BEGIN, e), '+'), b);
  }

  lemma SurvivesIfEscapable(a: string, b: string)
    requires Escapable(a) && Plain(b) && b != ""
    ensures Words(EscapePlus(a) + "+" + b) == Ok([a, b])
  {
    ScanEscaped(a);
    ScanThenPlain(EscapePlus(a), b);
    assert FeedAll(BEGIN, EscapePlus(a) + "+" + b) == Scan(false, [a], b) by {
      assert [] + [a] == [a] && "" + b == b;
    }
    assert [a] + [b] == [a, b];
  }

  lemma {:induction false} FirstBadPlus(a: string) returns (i: nat)
    requires !PlusSafe(a)
    ensures i < |a| && a[i] == '+' && PlusSafe(a[..i]) && TrailingBackslashes(a[..i]) % 2 == 1
  {
    var p, c := a[..|a| - 1], a[|a| - 1];
    assert a == p + [c];
    PlusSafeSnoc(p, c);
    if PlusSafe(p) {
      i := |a| - 1;
    } else {
      i := FirstBadPlus(p);
      assert p[..i] == a[..i];
    }
  }

  lemma EscapeAround(pre: string, post: string)
    ensures EscapePlus(pre + "+" + post) == EscapePlus(pre) + ['\\'] + ['+'] + EscapePlus(post)
  {
    EscapeAppend(pre + "+", post);
    assert (pre + "+")[..|pre|] == pre;
    assert EscapePlus(pre + "+") == EscapePlus(pre) + "\\+";
    assert "\\+" == ['\\'] + ['+'];
  }

  /** An odd run before '+' turns the escaped plus into a cut, after one backslash too many. */
  lemma OddRunCuts(pre: string, rest: string)
    requires PlusSafe(pre) && TrailingBackslashes(pre) % 2 == 1
    ensures [pre + "\\"] <= FeedAll(BEGIN, EscapePlus(pre) + ['\\'] + ['+'] + rest).ret
  {
    var e := EscapePlus(pre);
    ScanEscaped(pre);
    assert pre[..|pre| - 1] + "\\" == pre;
    FeedSnoc(BEGIN, e, '\\');
    FeedSnoc(BEGIN, e + ['\\'], '+');
    var st := FeedAll(BEGIN, e + ['\\'] + ['+']);
    assert st.ret == [pre + "\\"];
    FeedAllAppend(BEGIN, e + ['\\'] + ['+'], rest);
    RetGrows(st, rest);
  }

  lemma LostIfPlusUnsafe(a: string, b: string)
    requires !PlusSafe(a)
    ensures Words(EscapePlus(a) + "+" + b) != Ok([a, b])
  {
    var i := FirstBadPlus(a);
    var pre, post := a[..i], a[i + 1..];
    assert a == pre + "+" + post;
    EscapeAround(pre, post);
    var rest := EscapePlus(post) + "+" + b;
    assert EscapePlus(a) + "+" + b == EscapePlus(pre) + ['\\'] + ['+'] + rest;
    OddRunCuts(pre, rest);
    var st := FeedAll(BEGIN, EscapePlus(a) + "+" + b);
    assert st.ret[0] == pre + "\\";
    assert (pre + "\\")[i] != a[i];
    assert Finish(st).Ok? ==> Finish(st).value[0] == st.ret[0];
    assert [a, b][0] == a;
  }

  lemma LostIfOddEnd(a: string, b: string)
    requires PlusSafe(a) && TrailingBackslashes(a) % 2 == 1 && Plain(b) && b != ""
    ensures Words(EscapePlus(a) + "+" + b) != Ok([a, b])
  {
    ScanEscaped(a);
    ScanThenPlain(EscapePlus(a), b);
    assert |FeedAll(BEGIN, EscapePlus(a) + "+" + b).ret| == 0;
  }

  /** Splitting undoes escaping exactly on the words whose relevant backslash runs are even. */
  lemma EscapeRoundTrip(a: string, b: string)
    requires Plain(b) && b != ""
    ensures Words(EscapePlus(a) + "+" + b) == Ok([a, b]) <==> Escapable(a)
  {
    if Escapable(a) {
      SurvivesIfEscapable(a, b);
    } else if PlusSafe(a) {
      LostIfOddEnd(a, b);
    } else {
      LostIfPlusUnsafe(a, b);
    }
  }

  // ----- The scanner's own words are escapable -----

  predicate ScanSound(st: Scan) {
    Escapable(st.word) && forall i :: 0 <= i < |st.ret| ==> Escapable(st.ret[i])
  }

  lemma EscapedPairSound(w: string, c: char)
    requires Escapable(w) && c != '+'
    ensures Escapable(w + "\\" + [c])
  {
    PlusSafeSnoc(w, '\\');
    assert w + "\\" == w + ['\\'];
    PlusSafeSnoc(w + "\\", c);
  }

  lemma FeedSound(st: Scan, c: char)
    requires ScanSound(st)
    ensures ScanSound(Feed(st, c))
  {
    if st.escape {
      EscapeSound(st, c);
    } else if c == '+' {
      CutSound(st);
    } else if c != '\\' {
      PlusSafeSnoc(st.word, c);
    }
  }

  lemma EscapeSound(st: Scan, c: char)
    requires ScanSound(st) && st.escape
    ensures ScanSound(Feed(st, c))
  {
    if c == '+' {
      PlusSafeSnoc(st.word, c);
      assert st.word + "" + [c] == st.word + [c];
    } else {
      EscapedPairSound(st.word, c);
    }
  }

  lemma CutSound(st: Scan)
    requires ScanSound(st) && !st.escape
    ensures ScanSound(Feed(st, '+'))
  {
    var ret := st.ret + [st.word];
    forall i | 0 <= i < |ret| ensures Escapable(ret[i]) {
      assert i < |st.ret| ==> ret[i] == st.ret[i];
    }
  }

  lemma {:induction false} FeedAllSound(st: Scan, s: string)
    requires ScanSound(st)
    ensures ScanSound(FeedAll(st, s))
  {
    if s != "" {
      FeedAllSound(st, s[..|s| - 1]);
      FeedSound(FeedAll(st, s[..|s| - 1]), s[|s| - 1]);
    }
  }

  lemma WordsAreEscapable(s: string)
    ensures Words(s).Ok? ==> forall i :: 0 <= i < |Words(s).value| ==> Escapable(Words(s).value[i])
  {
    FeedAllSound(BEGIN, s);
  }
}
