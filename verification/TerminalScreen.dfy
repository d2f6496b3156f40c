/** The echo as a terminal shows it: the row that the cursor is in holds the line as it is kept, and blanks behind it. */
module TerminalScreen {
  import opened TerminalLine

  /** The row of the cursor. */
  datatype Screen = Screen(row: string, cursor: nat)

  const CURSOR_LEFT: string := "\U{1b}[1D"

  function Left(d: Screen): Screen {
    Screen(d.row, if d.cursor == 0 then 0 else d.cursor - 1)
  }

  /** A carriage return goes to the left edge, a line feed to an empty row; anything else is written over what is there. */
  function Put(d: Screen, c: char): (e: Screen)
    requires d.cursor <= |d.row|
    ensures e.cursor <= |e.row|
  {
    if c == '\r' then Screen(d.row, 0)
    else if c == '\n' then Screen(seq(d.cursor, _ => ' '), d.cursor)
    else Screen(d.row[..d.cursor] + [c] + (if d.cursor < |d.row| then d.row[d.cursor + 1..] else ""), d.cursor + 1)
  }

  /** What a terminal makes of characters and of the sequence that moves its cursor. */
  function Shown(d: Screen, s: string): (e: Screen)
    requires d.cursor <= |d.row|
    ensures e.cursor <= |e.row|
    decreases |s|
  {
    if s == "" then d
    else if CURSOR_LEFT <= s then Shown(Left(d), s[|CURSOR_LEFT|..])
    else Shown(Put(d, s[0]), s[1..])
  }

  /** A key that writes a character, goes to a new line or rubs out; no other control characters. */
  predicate IsKey(c: char) {
    c >= ' ' || c == '\r' || c == '\n' || IsBackspace(c)
  }

  /** The last line of a text. */
  function LastLine(kept: string): string {
    if kept == "" || kept[|kept| - 1] == '\n' then "" else LastLine(kept[..|kept| - 1]) + [kept[|kept| - 1]]
  }

  /** No newline is rubbed out. */
  predicate WithinLines(t: Line, s: string) {
    s == "" || (WithinLines(t, s[..|s| - 1])
                && (IsBackspace(s[|s| - 1]) ==> var kept := Fold(t, s[..|s| - 1]).kept; kept == "" || kept[|kept| - 1] != '\n'))
  }

  ghost predicate Agrees(d: Screen, kept: string) {
    && d.cursor == |LastLine(kept)| <= |d.row| && d.row[..d.cursor] == LastLine(kept)
    && forall k :: d.cursor <= k < |d.row| ==> d.row[k] == ' '
  }

  lemma ShownPut(d: Screen, c: char, x: string)
    requires d.cursor <= |d.row| && c != '\U{1b}'
    ensures Shown(d, [c] + x) == Shown(Put(d, c), x)
  {
    assert ([c] + x)[0] == c && ([c] + x)[1..] == x;
    assert CURSOR_LEFT[0] == '\U{1b}';
  }

  lemma ShownLeft(d: Screen, x: string)
    requires d.cursor <= |d.row|
    ensures Shown(d, CURSOR_LEFT + x) == Shown(Left(d), x)
  {
    assert (CURSOR_LEFT + x)[|CURSOR_LEFT|..] == x;
  }

  /** What the echo of one key does to the screen. */
  function Effect(d: Screen, echo: string): (e: Screen)
    requires d.cursor <= |d.row|
    ensures e.cursor <= |e.row|
  {
    if echo == NEWLINE then Put(Put(d, '\r'), '\n')
    else if echo == RUBOUT then Left(Put(Left(d), ' '))
    else if |echo| == 1 then Put(d, echo[0])
    else d
  }

  function EchoOf(t: Line, c: char): string {
    if c == '\r' || (c == '\n' && !t.skipNewline) then NEWLINE else if c == '\n' then "" else if IsBackspace(c) then RUBOUT else [c]
  }

  lemma EchoAdded(t: Line, c: char)
    ensures Edited(t, c).echo == t.echo + EchoOf(t, c)
  {
    assert t.echo + "" == t.echo;
  }

  lemma ShownEcho(d: Screen, t: Line, c: char, x: string)
    requires d.cursor <= |d.row| && IsKey(c)
    ensures Shown(d, EchoOf(t, c) + x) == Shown(Effect(d, EchoOf(t, c)), x)
  {
    hide Shown, Put, Left;
    var e := EchoOf(t, c);
    if e == NEWLINE {
      assert e + x == ['\r'] + (['\n'] + x);
      ShownPut(d, '\r', ['\n'] + x);
      ShownPut(Put(d, '\r'), '\n', x);
    } else if e == RUBOUT {
      assert e + x == CURSOR_LEFT + ([' '] + (CURSOR_LEFT + x));
      LeftStays(d);
      ShownLeft(d, [' '] + (CURSOR_LEFT + x));
      ShownPut(Left(d), ' ', CURSOR_LEFT + x);
      ShownLeft(Put(Left(d), ' '), x);
    } else if e == "" {
      assert e + x == x;
    } else {
      ShownPut(d, c, x);
    }
  }

  lemma LeftStays(d: Screen)
    requires d.cursor <= |d.row|
    ensures Left(d).cursor <= |Left(d).row|
  {
  }

  /** The screen after the keys of s, one after another. */
  function Typed(d: Screen, t: Line, s: string): (e: Screen)
    requires d.cursor <= |d.row|
    ensures e.cursor <= |e.row|
  {
    if s == "" then d else Effect(Typed(d, t, s[..|s| - 1]), EchoOf(Fold(t, s[..|s| - 1]), s[|s| - 1]))
  }

  lemma {:induction false} ShownIsTyped(d: Screen, t: Line, s: string, x: string)
    requires d.cursor <= |d.row| && t.echo == "" && forall c :: c in s ==> IsKey(c)
    ensures Shown(d, Fold(t, s).echo + x) == Shown(Typed(d, t, s), x)
    decreases |s|
  {
    hide Shown, EchoOf, Effect, Edited;
    if s == "" {
      assert "" + x == x;
    } else {
      var front, c := s[..|s| - 1], s[|s| - 1];
      assert c in s && forall y :: y in front ==> y in s;
      var u, e := Fold(t, front), EchoOf(Fold(t, front), c);
      EchoAdded(u, c);
      assert Fold(t, s).echo + x == u.echo + (e + x);
      ShownIsTyped(d, t, front, e + x);
      ShownEcho(Typed(d, t, front), u, c, x);
    }
  }

  lemma NewlineAgrees(d: Screen, kept: string)
    requires d.cursor <= |d.row|
    ensures Agrees(Effect(d, NEWLINE), kept + "\n")
  {
    assert LastLine(kept + "\n") == "";
  }

  lemma RuboutAgrees(d: Screen, kept: string)
    requires Agrees(d, kept) && (kept == "" || kept[|kept| - 1] != '\n')
    ensures Agrees(Effect(d, RUBOUT), if kept == "" then "" else kept[..|kept| - 1])
  {
    var n := d.cursor;
    if kept == "" {
      assert n == 0 && Effect(d, RUBOUT).row == [' '] + (if |d.row| > 0 then d.row[1..] else "");
    } else {
      var front := LastLine(kept[..|kept| - 1]);
      assert LastLine(kept) == front + [kept[|kept| - 1]] && n == |front| + 1;
      var e := Effect(d, RUBOUT);
      assert e.row == d.row[..n - 1] + [' '] + d.row[n..] && e.cursor == n - 1;
      assert d.row[..n - 1] == d.row[..n][..n - 1] == front;
    }
  }

  lemma PlainAgrees(d: Screen, kept: string, c: char)
    requires Agrees(d, kept) && c != '\r' && c != '\n'
    ensures Agrees(Put(d, c), kept + [c])
  {
    assert (kept + [c])[..|kept|] == kept;
    assert LastLine(kept + [c]) == LastLine(kept) + [c];
    var n, e := d.cursor, Put(d, c);
    assert e.row[..n + 1] == d.row[..n] + [c];
    forall k | n + 1 <= k < |e.row|
      ensures e.row[k] == ' '
    {
      assert e.row[k] == d.row[k];
    }
  }

  lemma KeyAgrees(d: Screen, t: Line, c: char)
    requires Agrees(d, t.kept) && IsKey(c) && (IsBackspace(c) ==> t.kept == "" || t.kept[|t.kept| - 1] != '\n')
    ensures Agrees(Effect(d, EchoOf(t, c)), Edited(t, c).kept)
  {
    NewlineAgrees(d, t.kept);
    if IsBackspace(c) {
      RuboutAgrees(d, t.kept);
    } else if c != '\r' && c != '\n' {
      PlainAgrees(d, t.kept, c);
      assert |EchoOf(t, c)| == 1;
    }
    hide Agrees, LastLine, Put, Left;
  }

  lemma {:induction false} TypedAgrees(t: Line, s: string)
    requires t.kept == "" && t.echo == "" && (forall c :: c in s ==> IsKey(c)) && WithinLines(t, s)
    ensures Agrees(Typed(Screen("", 0), t, s), Fold(t, s).kept)
    decreases |s|
  {
    hide Agrees, EchoOf, Effect, Edited;
    if s == "" {
      NothingAgrees();
    } else {
      var front, c := s[..|s| - 1], s[|s| - 1];
      assert c in s && forall y :: y in front ==> y in s;
      TypedAgrees(t, front);
      KeyAgrees(Typed(Screen("", 0), t, front), Fold(t, front), c);
    }
  }

  lemma NothingAgrees()
    ensures Agrees(Screen("", 0), "")
  {
  }

  /** Whatever is typed, as long as no newline is rubbed out, the user sees the line that is kept, and the cursor at its end. */
  lemma SeenIsKept(s: string)
    requires (forall c :: c in s ==> IsKey(c)) && WithinLines(Line("", false, false, ""), s)
    ensures var r := Fold(Line("", false, false, ""), s); Agrees(Shown(Screen("", 0), r.echo), r.kept)
  {
    hide Agrees, Shown, Fold, Typed;
    var t := Line("", false, false, "");
    ShownIsTyped(Screen("", 0), t, s, "");
    TypedAgrees(t, s);
    var e := Fold(t, s).echo;
    assert e + "" == e;
    ShownNothing(Typed(Screen("", 0), t, s));
  }

  lemma ShownNothing(d: Screen)
    requires d.cursor <= |d.row|
    ensures Shown(d, "") == d
  {
  }
}
