/** Line editing on a terminal: what the bytes received mean, and the code that edits them in the reader's buffer. */
module TerminalLine {

  const DOS_BACKSPACE: char := '\U{8}'
  const UNIX_BACKSPACE: char := '\U{7f}'
  const NEWLINE: string := "\r\n"
  const RUBOUT: string := "\U{1b}[1D \U{1b}[1D"

  predicate IsBackspace(c: char) {
    c == DOS_BACKSPACE || c == UNIX_BACKSPACE
  }

  /** The text kept so far, what happened just before, and everything shown to the user. */
  datatype Line = Line(kept: string, skipNewline: bool, newline: bool, echo: string)

  function Edited(t: Line, c: char): Line {
    if c == '\r' then
      Line(t.kept + "\n", true, true, t.echo + NEWLINE)
    else if c == '\n' then
      if t.skipNewline then t.(skipNewline := false) else Line(t.kept + "\n", false, true, t.echo + NEWLINE)
    else if IsBackspace(c) then
      t.(kept := if t.kept == "" then "" else t.kept[..|t.kept| - 1], echo := t.echo + RUBOUT)
    else
      Line(t.kept + [c], false, t.newline, t.echo + [c])
  }

  function Fold(t: Line, s: string): Line {
    if s == "" then t else Edited(Fold(t, s[..|s| - 1]), s[|s| - 1])
  }

  /** Bytes may arrive in any pieces. */
  lemma {:induction false} FoldInPieces(t: Line, a: string, b: string)
    ensures Fold(t, a + b) == Fold(Fold(t, a), b)
    decreases |b|
  {
    if b == "" {
      assert a + b == a;
    } else {
      var n := |b| - 1;
      assert (a + b)[..|a| + n] == a + b[..n];
      FoldInPieces(t, a, b[..n]);
    }
  }

  /** Starting with nothing shown and no newline seen, the rest is the same. */
  lemma {:induction false} FoldAfresh(t: Line, s: string)
    ensures var r := Fold(t.(newline := false, echo := ""), s);
      Fold(t, s) == r.(newline := t.newline || r.newline, echo := t.echo + r.echo)
  {
    if s == "" {
      assert t.echo + "" == t.echo;
    } else {
      FoldAfresh(t, s[..|s| - 1]);
      EditedAfresh(t.echo, t.newline, Fold(t.(newline := false, echo := ""), s[..|s| - 1]), s[|s| - 1]);
    }
  }

  lemma EditedAfresh(echo: string, newline: bool, r: Line, c: char)
    ensures var u := Edited(r, c);
      Edited(r.(newline := newline || r.newline, echo := echo + r.echo), c) == u.(newline := newline || u.newline, echo := echo + u.echo)
  {
    assert echo + (r.echo + NEWLINE) == echo + r.echo + NEWLINE;
    assert echo + (r.echo + RUBOUT) == echo + r.echo + RUBOUT;
    assert echo + (r.echo + [c]) == echo + r.echo + [c];
  }

  function Concat(pieces: seq<string>): string {
    if pieces == [] then "" else Concat(pieces[..|pieces| - 1]) + pieces[|pieces| - 1]
  }

  function FoldAll(t: Line, pieces: seq<string>): Line {
    if pieces == [] then t else Fold(FoldAll(t, pieces[..|pieces| - 1]), pieces[|pieces| - 1])
  }

  lemma {:induction false} AnyPieces(t: Line, pieces: seq<string>)
    ensures FoldAll(t, pieces) == Fold(t, Concat(pieces))
  {
    if pieces != [] {
      var n := |pieces| - 1;
      AnyPieces(t, pieces[..n]);
      FoldInPieces(t, Concat(pieces[..n]), pieces[n]);
    }
  }

  // -------------------------------------------------------------- terminals differ in how they send a newline

  predicate IsText(s: string) {
    forall c :: c in s ==> c != '\r' && !IsBackspace(c)
  }

  predicate IsNewline(newline: string) {
    newline == "\r" || newline == "\n" || newline == "\r\n"
  }

  /** A text as a terminal sends it that has its own way to send a newline. */
  function Sent(s: string, newline: string): string {
    if s == "" then ""
    else Sent(s[..|s| - 1], newline) + (if s[|s| - 1] == '\n' then newline else [s[|s| - 1]])
  }

  /** One character of the text, given that a newline just before it does not swallow it. */
  lemma SentCharacter(t: Line, c: char, newline: string)
    requires c != '\r' && !IsBackspace(c) && IsNewline(newline)
    requires t.skipNewline ==> newline == "\r"
    ensures Fold(t, if c == '\n' then newline else [c]) ==
      Line(t.kept + [c], newline == "\r" && c == '\n', t.newline || c == '\n', t.echo + (if c == '\n' then NEWLINE else [c]))
  {
    FoldOne(t, c);
    FoldOne(t, '\r');
    FoldTwo(t, '\r', '\n');
  }

  /** What is left of a text that was sent. */
  function After(t: Line, s: string, newline: string): Line {
    Line(t.kept + s, newline == "\r" && s != "" && s[|s| - 1] == '\n', t.newline || '\n' in s, t.echo + Sent(s, NEWLINE))
  }

  lemma AfterOne(t: Line, front: string, c: char, newline: string)
    ensures var u, s := After(t, front, newline), front + [c];
      After(t, s, newline) ==
        Line(u.kept + [c], newline == "\r" && c == '\n', u.newline || c == '\n', u.echo + (if c == '\n' then NEWLINE else [c]))
    ensures Sent(front + [c], newline) == Sent(front, newline) + (if c == '\n' then newline else [c])
  {
    var s := front + [c];
    assert s[..|s| - 1] == front;
    assert t.kept + front + [c] == t.kept + s;
    var shown := if c == '\n' then NEWLINE else [c];
    assert t.echo + Sent(front, NEWLINE) + shown == t.echo + (Sent(front, NEWLINE) + shown);
  }

  lemma {:induction false} SentLine(t: Line, s: string, newline: string)
    requires IsText(s) && IsNewline(newline) && !t.skipNewline
    ensures Fold(t, Sent(s, newline)) == After(t, s, newline)
  {
    hide Fold, Edited, IsNewline, Sent;
    if s == "" {
      SentNothing(t, newline);
    } else {
      var n := |s| - 1;
      var front, c := s[..n], s[n];
      assert s == front + [c] && c in s && forall x :: x in front ==> x in s;
      SentLine(t, front, newline);
      AfterOne(t, front, c, newline);
      SentCharacter(After(t, front, newline), c, newline);
      FoldInPieces(t, Sent(front, newline), if c == '\n' then newline else [c]);
    }
  }

  lemma SentNothing(t: Line, newline: string)
    requires !t.skipNewline
    ensures Fold(t, Sent("", newline)) == After(t, "", newline)
  {
    assert t.kept + "" == t.kept && t.echo + "" == t.echo;
  }

  lemma FoldNothing(t: Line)
    ensures Fold(t, "") == t
  {
  }

  lemma FoldOne(t: Line, c: char)
    ensures Fold(t, [c]) == Edited(t, c)
  {
    assert [c][..0] == "";
    assert Fold(t, "") == t;
  }

  lemma FoldTwo(t: Line, c: char, d: char)
    ensures Fold(t, [c, d]) == Edited(Edited(t, c), d)
  {
    assert [c, d][..1] == [c];
    FoldOne(t, c);
  }

  /** Whatever the convention, the same text is kept and the same is shown. */
  lemma AnyNewline(s: string, newline: string)
    requires IsText(s) && IsNewline(newline)
    ensures Fold(Line("", false, false, ""), Sent(s, newline)).kept == s
    ensures Fold(Line("", false, false, ""), Sent(s, newline)).echo == Sent(s, NEWLINE)
  {
    SentLine(Line("", false, false, ""), s, newline);
    assert "" + s == s && "" + Sent(s, NEWLINE) == Sent(s, NEWLINE);
  }

  lemma EditedIsText(t: Line, c: char)
    requires IsText(t.kept)
    ensures IsText(Edited(t, c).kept)
  {
    var kept := Edited(t, c).kept;
    forall x | x in kept
      ensures x != '\r' && !IsBackspace(x)
    {
      assert x in t.kept || x == '\n' || x == c;
    }
  }

  /** What has been kept is text, so that normalizing it again changes nothing. */
  lemma {:induction false} KeptIsText(t: Line, s: string)
    requires IsText(t.kept)
    ensures IsText(Fold(t, s).kept)
  {
    if s != "" {
      KeptIsText(t, s[..|s| - 1]);
      EditedIsText(Fold(t, s[..|s| - 1]), s[|s| - 1]);
    }
  }

  lemma NormalizedTwice(s: string)
    ensures var kept := Fold(Line("", false, false, ""), s).kept; Fold(Line("", false, false, ""), kept).kept == kept
  {
    KeptIsText(Line("", false, false, ""), s);
    var kept := Fold(Line("", false, false, ""), s).kept;
    SentAsIs(kept);
    AnyNewline(kept, "\n");
  }

  lemma {:induction false} SentAsIs(s: string)
    ensures Sent(s, "\n") == s
  {
    if s != "" {
      SentAsIs(s[..|s| - 1]);
    }
  }

  /** Rubbing out whatever was typed, character by character, restores the text. */
  lemma {:induction false} RubbedOut(t: Line, typed: string, rubs: string)
    requires IsText(typed) && |rubs| == |typed| && (forall c :: c in rubs ==> c == '\U{8}' || c == '\U{7f}')
    requires '\n' !in typed
    ensures Fold(t, typed + rubs).kept == t.kept
    decreases |typed|
  {
    hide Fold, Edited;
    if typed == "" {
      assert typed + rubs == "";
      FoldNothing(t);
    } else {
      var c, rest := typed[0], typed[1..];
      var r, last := rubs[..|rubs| - 1], rubs[|rubs| - 1];
      assert forall x :: x in rest ==> x in typed;
      assert forall x :: x in r ==> x in rubs;
      assert typed + rubs == [c] + (rest + r) + [last];
      assert c in typed && last in rubs;
      RubbedOut(Edited(t, c), rest, r);
      RubbedOne(t, c, rest + r, last);
    }
  }

  lemma RubbedOne(t: Line, c: char, between: string, last: char)
    requires c != '\r' && c != '\n' && !IsBackspace(c) && IsBackspace(last)
    requires Fold(Edited(t, c), between).kept == Edited(t, c).kept
    ensures Fold(t, [c] + between + [last]).kept == t.kept
  {
    FoldOne(t, c);
    hide Fold;
    FoldInPieces(t, [c] + between, [last]);
    FoldInPieces(t, [c], between);
    FoldOne(Fold(t, [c] + between), last);
  }

  // -------------------------------------------------------------- the keys behind the bytes

  /** A carriage return, and nothing but rubbing out after it. */
  ghost predicate EndsInReturn(s: string) {
    exists j :: 0 <= j < |s| && s[j] == '\r' && forall k :: j < k < |s| ==> IsBackspace(s[k])
  }

  /** One newline for a carriage return, and for a line feed that does not belong to one; other bytes stand for themselves. */
  ghost function Keys(s: string): string {
    if s == "" then "" else
      var front, c := s[..|s| - 1], s[|s| - 1];
      Keys(front) + (if c == '\n' && EndsInReturn(front) then "" else if c == '\r' || c == '\n' then "\n" else [c])
  }

  /** The text that is left when every backspace has taken a character away. */
  function Rubbed(keys: string): string {
    if keys == "" then "" else
      var front, c := Rubbed(keys[..|keys| - 1]), keys[|keys| - 1];
      if !IsBackspace(c) then front + [c] else if front == "" then "" else front[..|front| - 1]
  }

  lemma EndsAfter(front: string, c: char)
    ensures EndsInReturn(front + [c]) <==> c == '\r' || (IsBackspace(c) && EndsInReturn(front))
  {
    var s := front + [c];
    if c == '\r' {
      assert s[|front|] == '\r';
    }
    if IsBackspace(c) && EndsInReturn(front) {
      var j :| 0 <= j < |front| && front[j] == '\r' && forall k :: j < k < |front| ==> IsBackspace(front[k]);
      assert s[j] == '\r';
    }
    if EndsInReturn(s) {
      var j :| 0 <= j < |s| && s[j] == '\r' && forall k :: j < k < |s| ==> IsBackspace(s[k]);
      if j < |front| {
        assert front[j] == '\r' && s[|front|] == c && forall k :: j < k < |front| ==> IsBackspace(s[k]) && s[k] == front[k];
      }
    }
  }

  lemma RubbedMore(keys: string, c: char)
    ensures Rubbed(keys + [c]) == if !IsBackspace(c) then Rubbed(keys) + [c] else if Rubbed(keys) == "" then "" else Rubbed(keys)[..|Rubbed(keys)| - 1]
  {
    assert (keys + [c])[..|keys|] == keys;
  }

  /** Whatever bytes arrive, in whatever mixture of conventions: what is kept is what the keys behind them leave. */
  lemma {:induction false} KeptIsRubbed(s: string)
    ensures var r := Fold(Line("", false, false, ""), s);
      r.kept == Rubbed(Keys(s)) && r.skipNewline == EndsInReturn(s) && r.newline == ('\n' in Keys(s))
  {
    hide EndsInReturn, Rubbed;
    if s == "" {
      NothingEnds();
    } else {
      var front, c := s[..|s| - 1], s[|s| - 1];
      assert s == front + [c];
      KeptIsRubbed(front);
      EndsAfter(front, c);
      RubbedMore(Keys(front), if c == '\r' then '\n' else c);
      assert Keys(front) + "" == Keys(front);
    }
  }

  lemma NothingEnds()
    ensures !EndsInReturn("") && Rubbed("") == ""
  {
  }

  // -------------------------------------------------------------- the first byte that has to go

  datatype Removal = Nothing | Newline | Backspace

  function FirstRemoval(t: Line, s: string): Removal {
    if s == "" then Nothing
    else
      var before, c := FirstRemoval(t, s[..|s| - 1]), s[|s| - 1];
      if before != Nothing then before
      else if IsBackspace(c) then Backspace
      else if c == '\n' && Fold(t, s[..|s| - 1]).skipNewline then Newline
      else Nothing
  }

  /** A backspace, or a line feed right behind the carriage return that it belongs to. */
  predicate HasToGo(t: Line, s: string, i: nat)
    requires i < |s|
  {
    IsBackspace(s[i]) || (s[i] == '\n' && if i == 0 then t.skipNewline else s[i - 1] == '\r')
  }

  lemma HasToGoInFront(t: Line, s: string, n: nat, i: nat)
    requires i < n <= |s|
    ensures HasToGo(t, s[..n], i) <==> HasToGo(t, s, i)
  {
  }

  lemma {:induction false} FirstRemovalIs(t: Line, s: string) returns (i: nat)
    ensures i <= |s| && (i == |s| <==> FirstRemoval(t, s) == Nothing) && forall k: nat :: k < i ==> !HasToGo(t, s, k)
    ensures i < |s| ==> HasToGo(t, s, i) && (FirstRemoval(t, s) == Backspace <==> IsBackspace(s[i]))
    ensures i == |s| ==> Fold(t, s).skipNewline == if s == "" then t.skipNewline else s[|s| - 1] == '\r'
  {
    if s == "" {
      i := 0;
    } else {
      var n := |s| - 1;
      var front := s[..n];
      i := FirstRemovalIs(t, front);
      forall k: nat | k < n
        ensures HasToGo(t, front, k) <==> HasToGo(t, s, k)
      {
        HasToGoInFront(t, s, n, k);
      }
      if i == n && FirstRemoval(t, s) == Nothing {
        i := n + 1;
      }
    }
  }
}

module Terminal {
  import opened TerminalLine

  /** What the device will answer when it is read: some bytes, or an error. */
  datatype Answer = Bytes(data: string) | Fails(code: int)

  ghost function Pending(answers: seq<Answer>): nat {
    if answers == [] then 0 else 1 + (if answers[0].Bytes? then |answers[0].data| else 0) + Pending(answers[1..])
  }

  class Device {
    var answers: seq<Answer>
    ghost var taken: string      // what it has handed out
    ghost var offered: string    // what it was given to write
    var written: string          // what it has written of that
    const works: bool            // writes always succeed

    constructor (answers: seq<Answer>, works: bool)
      ensures this.answers == answers && this.works == works && taken == offered == written == "" && Sound()
    {
      this.answers, this.works, written := answers, works, "";
      taken, offered := "", "";
    }

    ghost predicate Sound()
      reads `offered, `written
    {
      works ==> written == offered
    }

    /** At most size bytes; a device that has no more answers gives an error instead of blocking for ever. */
    method ReadBlock(buffer: array<char>, at: nat, size: nat) returns (r: int)
      requires at + size <= buffer.Length
      modifies buffer, `answers, `taken
      ensures r <= size
      ensures taken == old(taken) + if r < 0 then "" else buffer[at..at + r]
      ensures buffer[..at] == old(buffer[..at])
      ensures var end := if r < 0 then at else at + r; buffer[end..] == old(buffer[end..])
      ensures size > 0 && r >= 0 ==> Pending(answers) < old(Pending(answers))
    {
      if size == 0 {
        return 0;
      }
      if answers == [] {
        return -1;
      }
      match answers[0]
      case Fails(code) =>
        answers := answers[1..];
        return if code < 0 then code else -1;
      case Bytes(data) =>
        var n := if |data| <= size then |data| else size;
        for k := 0 to n
          invariant forall j :: at <= j < at + k ==> buffer[j] == data[j - at]
          invariant forall j :: 0 <= j < at || at + k <= j < buffer.Length ==> buffer[j] == old(buffer[j])
          invariant answers == old(answers) && taken == old(taken)
        {
          buffer[at + k] := data[k];
        }
        answers := if n == |data| then answers[1..] else [Bytes(data[n..])] + answers[1..];
        assert buffer[at..at + n] == data[..n];
        taken := taken + data[..n];
        return n;
    }

    method WriteBlock(data: string) returns (r: int)
      requires Sound()
      modifies `written, `offered
      ensures Sound() && offered == old(offered) + data
      ensures works ==> r > 0
      ensures written == if r > 0 then old(written) + data else old(written)
    {
      offered := offered + data;
      if works {
        written := written + data;
        return if |data| == 0 then 1 else |data|;
      }
      r := *;
      if r > 0 {
        written := written + data;
      }
    }
  }

  function Moved(s: string, to: nat, from: nat, n: nat): string
    requires to <= from && from + n <= |s|
  {
    s[..to] + s[from..from + n] + s[to + n..]
  }

  /** What a call of EchoBack adds to what is shown. */
  function Flushed(s: string, chunkStart: nat, chunkEnd: nat, sep: string, echo: bool): string
    requires chunkStart <= chunkEnd <= |s|
  {
    if echo then s[chunkStart..chunkEnd] + sep else ""
  }

  method Memmove(buffer: array<char>, to: nat, from: nat, n: nat)
    requires to <= from && from + n <= buffer.Length
    modifies buffer
    ensures buffer[..] == Moved(old(buffer[..]), to, from, n)
  {
    ghost var was := buffer[..];
    hide Moved;
    MovedNone(was, to, from);
    for k := 0 to n
      invariant buffer[..] == Moved(was, to, from, k)
    {
      MovedOne(was, to, from, k);
      buffer[to + k] := buffer[from + k];
    }
  }

  lemma MovedNone(s: string, to: nat, from: nat)
    requires to <= from <= |s|
    ensures Moved(s, to, from, 0) == s
  {
  }

  lemma MovedOne(s: string, to: nat, from: nat, k: nat)
    requires to <= from && from + k < |s|
    ensures var t := Moved(s, to, from, k);
      |t| == |s| && Moved(s, to, from, k + 1) == t[to + k := t[from + k]]
  {
    var t, later := Moved(s, to, from, k), Moved(s, to, from, k + 1);
    assert t[from + k] == s[from + k];
    forall j | 0 <= j < |s|
      ensures later[j] == t[to + k := t[from + k]][j]
    {
    }
  }

  class TerminalDevice {
    const device: Device
    var echo: bool
    var binary: bool
    var skipNewline: bool
    var chunkStart: nat

    constructor (device: Device)
      ensures this.device == device && echo && !binary && !skipNewline
    {
      this.device := device;
      echo, binary, skipNewline, chunkStart := true, false, false, 0;
    }

    /** Shows what has been kept since the last call, and then the separator, if there is one. */
    method EchoBack(buffer: array<char>, chunkEnd: nat, sep: string)
      requires chunkStart <= chunkEnd <= buffer.Length && device.Sound()
      modifies `chunkStart, device`written, device`offered
      ensures device.Sound() && chunkStart == if echo then chunkEnd + 1 else old(chunkStart)
      ensures device.offered == old(device.offered) + Flushed(buffer[..], old(chunkStart), chunkEnd, sep, echo)
    {
      if !echo {
        return;
      }
      var r;
      if chunkEnd > chunkStart {
        r := device.WriteBlock(buffer[chunkStart..chunkEnd]);
      }
      chunkStart := chunkEnd + 1;
      if sep != "" {
        r := device.WriteBlock(sep);
      }
    }

    /** A carriage return ends the line, and a newline right after it is to be skipped. */
    method TakeReturn(buffer: array<char>, i: nat, end: nat, ghost job: Job, ghost k: nat, ghost found: bool, ghost tooFar: bool)
      requires device.Sound() && echo == job.echo && i < end && k <= |job.input|
      requires At(job, buffer[..], i, end, skipNewline, found, tooFar, chunkStart, device.offered, k)
      requires i < buffer.Length && buffer[i] == '\r'
      modifies `skipNewline, `chunkStart, buffer, device`written, device`offered
      ensures device.Sound() && k < |job.input|
      ensures At(job, buffer[..], i + 1, end, skipNewline, true, tooFar, chunkStart, device.offered, k + 1)
    {
      hide At, Flushed, Device.Sound;
      ghost var v := View(buffer[..], i, end, skipNewline, found, tooFar, chunkStart, device.offered);
      AtNext(job, v, k);
      buffer[i] := '\n';
      EchoBack(buffer, i, NEWLINE);
      skipNewline := true;
      AtReturn(job, v, k, buffer[..], device.offered, chunkStart);
    }

    /** A newline ends the line too, or is the one to be skipped; then the bytes after it move up. */
    method TakeNewline(buffer: array<char>, i: nat, end: nat, ghost job: Job, ghost k: nat, found: bool, ghost tooFar: bool)
      returns (later: nat, end': nat, found': bool)
      requires device.Sound() && echo == job.echo && i < end && k <= |job.input|
      requires At(job, buffer[..], i, end, skipNewline, found, tooFar, chunkStart, device.offered, k)
      requires end < buffer.Length && buffer[i] == '\n'
      modifies `skipNewline, `chunkStart, buffer, device`written, device`offered
      ensures device.Sound() && k < |job.input|
      ensures At(job, buffer[..], later, end', skipNewline, found', tooFar, chunkStart, device.offered, k + 1)
    {
      hide At, Moved, Flushed, Device.Sound;
      ghost var v := View(buffer[..], i, end, skipNewline, found, tooFar, chunkStart, device.offered);
      AtNext(job, v, k);
      if skipNewline {
        skipNewline := false;
        Memmove(buffer, i, i + 1, end - i - 1);
        AtDropped(job, v, k, buffer[..]);
        return i, end - 1, found;
      }
      EchoBack(buffer, i, NEWLINE);
      AtNewline(job, v, k, device.offered, chunkStart);
      return i + 1, end, true;
    }

    /** A backspace is shown before the bytes after it move up, over the character before it if there is one. */
    method RubOut(buffer: array<char>, i: nat, end: nat, ghost job: Job, ghost k: nat, ghost found: bool, ghost tooFar: bool)
      returns (later: nat, end': nat)
      requires device.Sound() && echo == job.echo && i < end && k <= |job.input|
      requires At(job, buffer[..], i, end, skipNewline, found, tooFar, chunkStart, device.offered, k)
      requires end < buffer.Length && IsBackspace(buffer[i])
      modifies `skipNewline, `chunkStart, buffer, device`written, device`offered
      ensures device.Sound() && k < |job.input| && skipNewline == old(skipNewline)
      ensures At(job, buffer[..], later, end', skipNewline, found, tooFar || end == job.end0, chunkStart, device.offered, k + 1)
    {
      hide At, Moved, Flushed, Device.Sound;
      ghost var v := View(buffer[..], i, end, skipNewline, found, tooFar, chunkStart, device.offered);
      AtNext(job, v, k);
      EchoBack(buffer, i, RUBOUT);
      var backward := if i == 0 then 1 else 2;
      Memmove(buffer, i - (backward - 1), i + 1, end - i);
      chunkStart := i - backward + 1;
      AtRubbed(job, v, k, buffer[..], device.offered);
      return i - backward + 1, end - backward;
    }

    /** Any other byte stays. */
    method TakeOther(buffer: array<char>, i: nat, end: nat, ghost job: Job, ghost k: nat, ghost found: bool, ghost tooFar: bool)
      requires device.Sound() && echo == job.echo && i < end && k <= |job.input|
      requires At(job, buffer[..], i, end, skipNewline, found, tooFar, chunkStart, device.offered, k)
      requires i < buffer.Length && buffer[i] != '\r' && buffer[i] != '\n' && !IsBackspace(buffer[i])
      modifies `skipNewline
      ensures k < |job.input| && At(job, buffer[..], i + 1, end, skipNewline, found, tooFar, chunkStart, device.offered, k + 1)
    {
      hide At;
      ghost var v := View(buffer[..], i, end, skipNewline, found, tooFar, chunkStart, device.offered);
      AtNext(job, v, k);
      skipNewline := false;
      AtOther(job, v, k);
    }

    /**
     * Normalizes what is between begin and end, and shows it. The last move of a backspace reads one byte more than there
     * is, so the buffer is taken to have a byte to spare; tooFar tells whether it was needed.
     */
    method Normalize(buffer: array<char>, begin: nat, end0: nat) returns (end: nat, newlineFound: bool, ghost tooFar: bool)
      requires begin <= end0 < buffer.Length && device.Sound()
      modifies `skipNewline, `chunkStart, buffer, device`written, device`offered
      ensures end <= end0 && device.Sound()
      ensures Normalized(JobOf(old(buffer[..]), begin, end0, old(skipNewline), old(device.offered), echo),
                         buffer[..], end, skipNewline, newlineFound, tooFar, device.offered)
    {
      hide At, Flushed, JobOf, Normalized, Device.Sound, IsBackspace;
      ghost var job := JobOf(buffer[..], begin, end0, skipNewline, device.offered, echo);
      ghost var k := 0;
      newlineFound, tooFar, end := false, false, end0;
      chunkStart := begin;
      var i: nat := begin;
      AtFirst(buffer[..], begin, end0, skipNewline, device.offered, echo);
      while i < end
        invariant k <= |job.input| && echo == job.echo && device.Sound()
        invariant At(job, buffer[..], i, end, skipNewline, newlineFound, tooFar, chunkStart, device.offered, k)
        decreases |job.input| - k
      {
        AtNext(job, View(buffer[..], i, end, skipNewline, newlineFound, tooFar, chunkStart, device.offered), k);
        var c := buffer[i];
        Backspaces(c);
        if c == '\r' {
          TakeReturn(buffer, i, end, job, k, newlineFound, tooFar);
          newlineFound := true;
          i := i + 1;
        } else if c == '\n' {
          i, end, newlineFound := TakeNewline(buffer, i, end, job, k, newlineFound, tooFar);
        } else if c == UNIX_BACKSPACE || c == DOS_BACKSPACE {
          ghost var last := end == end0;
          i, end := RubOut(buffer, i, end, job, k, newlineFound, tooFar);
          tooFar := tooFar || last;
        } else {
          TakeOther(buffer, i, end, job, k, newlineFound, tooFar);
          i := i + 1;
        }
        k := k + 1;
      }
      ghost var v := View(buffer[..], i, end, skipNewline, newlineFound, tooFar, chunkStart, device.offered);
      AtNext(job, v, k);
      EchoBack(buffer, i, "");
      AtLast(job, v, k, device.offered);
    }

    /**
     * Reads until the buffer is full or a line has ended. What is returned is the fold of all that the device has handed
     * out, whatever the pieces; the byte to spare behind the buffer is left alone.
     */
    method Read(data: array<char>, length: nat) returns (r: int, ghost got: string)
      requires length < data.Length && device.Sound()
      modifies `skipNewline, `chunkStart, data, device`answers, device`taken, device`written, device`offered
      ensures device.Sound() && device.taken == old(device.taken) + got && data[length..] == old(data[length..])
      ensures binary ==> r <= length && got == (if r < 0 then "" else data[..r]) && skipNewline == old(skipNewline)
      ensures binary ==> device.offered == old(device.offered) + if echo then got else ""
      ensures !binary ==>
        var t := Fold(Line("", old(skipNewline), false, ""), got);
        && skipNewline == t.skipNewline && device.offered == old(device.offered) + (if echo then t.echo else "")
        && (r >= 0 ==> r <= length && data[..r] == t.kept && (r == length || t.newline))
    {
      hide Fold, FirstRemoval, ReadSoFar, Normalized, JobOf, Pending, Device.Sound;
      if binary {
        r := device.ReadBlock(data, 0, length);
        got := if r < 0 then "" else data[..r];
        TailKept(data[..], old(data[..]), if r < 0 then 0 else r, length);
        if echo && r > 0 {
          var ignored := device.WriteBlock(data[..r]);
        }
        return;
      }
      var readBytes: nat := 0;
      got := "";
      NothingRead(skipNewline, data[..], device.offered, echo);
      while true
        invariant readBytes <= length && (readBytes == length ==> length == 0) && data[length..] == old(data[length..])
        invariant device.Sound() && device.taken == old(device.taken) + got
        invariant ReadSoFar(old(skipNewline), got, data[..], readBytes, skipNewline, old(device.offered), device.offered, echo)
        decreases Pending(device.answers)
      {
        ghost var tail := data[..];
        r := device.ReadBlock(data, readBytes, length - readBytes);
        if r < 0 {
          TailKept(data[..], tail, readBytes, length);
          ReadEnds(old(skipNewline), got, tail, readBytes, skipNewline, old(device.offered), device.offered, echo);
          assert got + "" == got;
          return;
        }
        ghost var chunk, was := data[readBytes..readBytes + r], data[..];
        ghost var skip, seen := skipNewline, device.offered;
        var end, newlineFound, tooFar := Normalize(data, readBytes, readBytes + r);
        ReadNext(old(skipNewline), got, tail, readBytes, readBytes + r, was, skip, old(device.offered), seen, echo,
                 data[..], end, skipNewline, newlineFound, tooFar, device.offered, length);
        got := got + chunk;
        readBytes := end;
        if readBytes == length || newlineFound {
          return readBytes, got;
        }
      }
    }

    /** Sends a text with newlines as the terminal wants them, piece by piece, up to the first failure. */
    method Write(data: string) returns (r: int)
      requires device.Sound()
      modifies device`written, device`offered
      ensures device.Sound()
      ensures binary ==> device.written == if r > 0 then old(device.written) + data else old(device.written)
      ensures !binary ==> r == |data| || r <= 0
      ensures !binary && r == |data| ==> device.written == old(device.written) + Sent(data, NEWLINE)
      ensures !binary && device.works ==> r == |data|
    {
      if binary {
        r := device.WriteBlock(data);
        return;
      }
      var start := 0;
      hide Sending;
      SendingNone(device.written, data);
      for i := 0 to |data|
        invariant device.Sound() && start <= i && Sending(old(device.written), device.written, data, start, i)
      {
        SendingOne(old(device.written), device.written, data, start, i);
        if data[i] != '\n' {
          continue;
        }
        if i > start {
          r := device.WriteBlock(data[start..i]);
          if r <= 0 {
            return;
          }
        }
        r := device.WriteBlock(NEWLINE);
        if r <= 0 {
          return;
        }
        start := i + 1;
      }
      SendingAll(old(device.written), device.written, data, start);
      if |data| > start {
        r := device.WriteBlock(data[start..|data|]);
        if r <= 0 {
          return;
        }
      }
      return |data|;
    }
  }

  /** The text up to i has been sent, but for what stands between start and i. */
  ghost predicate Sending(before: string, written: string, data: string, start: nat, i: nat) {
    start <= i <= |data| && written + data[start..i] == before + Sent(data[..i], NEWLINE)
  }

  lemma SendingNone(before: string, data: string)
    ensures Sending(before, before, data, 0, 0)
  {
    assert data[..0] == "" && data[0..0] == "";
  }

  /** One character more, left for later or sent with what was left. */
  lemma SendingOne(before: string, written: string, data: string, start: nat, i: nat)
    requires Sending(before, written, data, start, i) && i < |data|
    ensures data[i] != '\n' ==> Sending(before, written, data, start, i + 1)
    ensures data[i] == '\n' && start < i ==> Sending(before, written + data[start..i] + NEWLINE, data, i + 1, i + 1)
    ensures data[i] == '\n' && start == i ==> Sending(before, written + NEWLINE, data, i + 1, i + 1)
  {
    assert data[..i + 1][..i] == data[..i];
    var sent := Sent(data[..i], NEWLINE);
    if data[i] == '\n' {
      assert before + sent + NEWLINE + data[i + 1..i + 1] == before + (sent + NEWLINE);
    } else {
      assert data[start..i + 1] == data[start..i] + [data[i]];
      assert written + data[start..i] + [data[i]] == written + (data[start..i] + [data[i]]);
      assert before + sent + [data[i]] == before + (sent + [data[i]]);
    }
  }

  lemma SendingAll(before: string, written: string, data: string, start: nat)
    requires Sending(before, written, data, start, |data|)
    ensures start <= |data| && written + data[start..|data|] == before + Sent(data, NEWLINE)
    ensures start == |data| ==> written == before + Sent(data, NEWLINE)
  {
    assert data[..|data|] == data;
    assert start == |data| ==> written + data[start..|data|] == written;
  }

  lemma TailKept(now: string, was: string, end: nat, length: nat)
    requires end <= length <= |now| == |was| && now[end..] == was[end..]
    ensures now[length..] == was[length..]
  {
    assert now[length..] == now[end..][length - end..];
    assert was[length..] == was[end..][length - end..];
  }

  /** No line has ended yet. */
  ghost predicate ReadSoFar(skip0: bool, got: string, data: string, n: nat, skip: bool, before: string, written: string, echo: bool) {
    var t := Fold(Line("", skip0, false, ""), got);
    n <= |data| && data[..n] == t.kept && skip == t.skipNewline && !t.newline && written == before + (if echo then t.echo else "")
  }

  lemma NothingRead(skip0: bool, data: string, before: string, echo: bool)
    ensures ReadSoFar(skip0, "", data, 0, skip0, before, before, echo)
  {
    assert data[..0] == "" && before + "" == before;
  }

  lemma ReadEnds(skip0: bool, got: string, data: string, n: nat, skip: bool, before: string, written: string, echo: bool)
    requires ReadSoFar(skip0, got, data, n, skip, before, written, echo)
    ensures var t := Fold(Line("", skip0, false, ""), got);
      skip == t.skipNewline && written == before + (if echo then t.echo else "")
  {
  }

  /** A round of the loop: the device puts a piece behind what there is, and it is normalized. */
  lemma ReadNext(skip0: bool, got: string, tail: string, n: nat, m: nat, was: string, skip: bool, before: string, seen: string, echo: bool,
                 data: string, end: nat, skip': bool, newline: bool, tooFar: bool, written: string, length: nat)
    requires ReadSoFar(skip0, got, tail, n, skip, before, seen, echo)
    requires n <= m <= length < |tail| == |was| == |data| && was[..n] == tail[..n] && was[m..] == tail[m..]
    requires Normalized(JobOf(was, n, m, skip, seen, echo), data, end, skip', newline, tooFar, written)
    ensures data[length..] == tail[length..] && end <= m
    ensures !newline ==> ReadSoFar(skip0, got + was[n..m], data, end, skip', before, written, echo)
    ensures var t := Fold(Line("", skip0, false, ""), got + was[n..m]);
      data[..end] == t.kept && skip' == t.skipNewline && newline == t.newline && written == before + (if echo then t.echo else "")
  {
    var j := JobOf(was, n, m, skip, seen, echo);
    ReadMore(skip0, got, j, was[n..m], data, end, skip', newline, tooFar, before, written);
    TailKept(data, was, m, length);
    TailKept(was, tail, m, length);
    hide ReadSoFar, Fold, FirstRemoval;
  }

  lemma ReadMore(skip0: bool, got: string, j: Job, chunk: string, data: string, end: nat, skip: bool, newline: bool, tooFar: bool,
                 before: string, written: string)
    requires j.input == chunk && j.begin <= |j.was| && ReadSoFar(skip0, got, j.was, j.begin, j.skip, before, j.before, j.echo)
    requires Normalized(j, data, end, skip, newline, tooFar, written)
    ensures end <= |data| && !newline ==> ReadSoFar(skip0, got + chunk, data, end, skip, before, written, j.echo)
    ensures var t := Fold(Line("", skip0, false, ""), got + chunk);
      end <= |data| == |j.was| && data[..end] == t.kept && skip == t.skipNewline && newline == t.newline
      && written == before + (if j.echo then t.echo else "")
    ensures j.end0 <= |data| && data[j.end0..] == j.was[j.end0..]
  {
    hide Fold, FirstRemoval;
    var t := Fold(Line("", skip0, false, ""), got);
    FoldInPieces(Line("", skip0, false, ""), got, j.input);
    FoldAfresh(t, j.input);
    assert t.(newline := false, echo := "") == Start(j);
    var r := Fold(Start(j), j.input);
    assert before + t.echo + r.echo == before + (t.echo + r.echo);
    assert before + "" + "" == before + "";
  }

  // -------------------------------------------------------------- what the loop keeps

  /** What was there at the start: the buffer, whether a newline is to be skipped, the input and where it is, and what had been shown. */
  datatype Job = Job(was: string, skip: bool, input: string, begin: nat, end0: nat, before: string, echo: bool)

  function Start(j: Job): Line {
    Line(if j.begin <= |j.was| then j.was[..j.begin] else "", j.skip, false, "")
  }

  function JobOf(was: string, begin: nat, end0: nat, skip: bool, before: string, echo: bool): Job
    requires begin <= end0 < |was|
  {
    Job(was, skip, was[begin..end0], begin, end0, before, echo)
  }

  /** The input has been folded into the line, and shown; and whether the byte to spare was read. */
  ghost predicate Normalized(j: Job, now: string, end: nat, skip: bool, newline: bool, tooFar: bool, written: string) {
    var t := Fold(Start(j), j.input);
    && end <= j.end0 <= |j.was| == |now| && now[j.end0..] == j.was[j.end0..]
    && now[..end] == t.kept && skip == t.skipNewline && newline == t.newline
    && written == j.before + (if j.echo then t.echo else "")
    && tooFar == (FirstRemoval(Start(j), j.input) == Backspace)
  }

  datatype View = View(now: string, i: nat, end: nat, skip: bool, newline: bool, tooFar: bool, start: nat, written: string)

  ghost predicate At(j: Job, now: string, i: nat, end: nat, skip: bool, newline: bool, tooFar: bool, start: nat, written: string, k: nat) {
    && k <= |j.input|
    && Stands(j.was, now, Start(j), j.input, j.begin, j.end0, k, i, end)
    && Shown(j.before, written, now, start, i, Fold(Start(j), j.input[..k]).echo, j.echo)
    && skip == Fold(Start(j), j.input[..k]).skipNewline && newline == Fold(Start(j), j.input[..k]).newline
    && (end == j.end0) == (FirstRemoval(Start(j), j.input[..k]) == Nothing)
    && tooFar == (FirstRemoval(Start(j), j.input[..k]) == Backspace)
  }

  /** After k bytes of the input: they are folded into the front of the buffer, the others have moved up. */
  ghost predicate Stands(was: string, now: string, t0: Line, input: string, begin: nat, end0: nat, k: nat, i: nat, end: nat) {
    && begin <= end0 < |was| == |now| && input == was[begin..end0] && k <= |input| && t0.kept == was[..begin]
    && i + (|input| - k) == end <= end0
    && now[..i] == Fold(t0, input[..k]).kept
    && now[i..end] == input[k..]
    && now[end0..] == was[end0..]
  }

  /** What was shown, and what has been kept but not shown yet, is what is to be shown. */
  ghost predicate Shown(before: string, written: string, now: string, chunkStart: nat, i: nat, shown: string, echo: bool) {
    && chunkStart <= i <= |now|
    && (echo ==> written + now[chunkStart..i] == before + shown)
    && (!echo ==> written == before)
  }

  lemma StandsAtFirst(was: string, t0: Line, input: string, begin: nat, end0: nat)
    requires begin <= end0 < |was| && input == was[begin..end0] && t0.kept == was[..begin]
    ensures Stands(was, was, t0, input, begin, end0, 0, begin, end0)
    ensures Fold(t0, input[..0]) == t0 && FirstRemoval(t0, input[..0]) == Nothing
  {
    assert input[..0] == "";
  }

  lemma FoldNext(t0: Line, input: string, k: nat)
    requires k < |input|
    ensures Fold(t0, input[..k + 1]) == Edited(Fold(t0, input[..k]), input[k])
    ensures FirstRemoval(t0, input[..k + 1]) ==
      var before := FirstRemoval(t0, input[..k]);
      if before != Nothing then before
      else if IsBackspace(input[k]) then Backspace
      else if input[k] == '\n' && Fold(t0, input[..k]).skipNewline then Newline
      else Nothing
  {
    assert input[..k + 1][..k] == input[..k];
  }

  /** The byte to look at next is the next one of the input. */
  lemma StandsBefore(was: string, now: string, t0: Line, input: string, begin: nat, end0: nat, k: nat, i: nat, end: nat)
    requires Stands(was, now, t0, input, begin, end0, k, i, end) && i < end
    ensures k < |input| && end < |now| && now[i] == input[k]
  {
    assert now[i..end][0] == input[k..][0];
  }

  lemma StandsAtLast(was: string, now: string, t0: Line, input: string, begin: nat, end0: nat, k: nat, i: nat, end: nat)
    requires Stands(was, now, t0, input, begin, end0, k, i, end) && i >= end
    ensures i == end && k == |input| && input[..k] == input && now[..end] == Fold(t0, input).kept
    ensures now[end0..] == was[end0..] && end <= end0
  {
  }

  lemma StandsAppended(was: string, now: string, later: string, t0: Line, input: string, begin: nat, end0: nat, k: nat, i: nat, end: nat, c: char)
    requires Stands(was, now, t0, input, begin, end0, k, i, end) && i < end && k < |input|
    requires later == now[i := c] && Edited(Fold(t0, input[..k]), input[k]).kept == Fold(t0, input[..k]).kept + [c]
    ensures Stands(was, later, t0, input, begin, end0, k + 1, i + 1, end)
  {
    hide Edited;
    FoldNext(t0, input, k);
    hide Fold;
    assert later[..i + 1] == now[..i] + [c];
    assert later[i + 1..end] == now[i..end][1..];
    assert input[k + 1..] == input[k..][1..];
  }

  lemma StandsDropped(was: string, now: string, later: string, t0: Line, input: string, begin: nat, end0: nat, k: nat, i: nat, end: nat)
    requires Stands(was, now, t0, input, begin, end0, k, i, end) && i < end && k < |input|
    requires end <= |now| && later == Moved(now, i, i + 1, end - i - 1)
    requires Edited(Fold(t0, input[..k]), input[k]).kept == Fold(t0, input[..k]).kept
    ensures Stands(was, later, t0, input, begin, end0, k + 1, i, end - 1)
  {
    hide Edited;
    FoldNext(t0, input, k);
    hide Fold;
    assert later[..i] == now[..i];
    assert later[i..end - 1] == now[i..end][1..];
    assert input[k + 1..] == input[k..][1..];
    assert later[end0..] == now[end0..];
  }

  lemma StandsRubbed(was: string, now: string, later: string, t0: Line, input: string, begin: nat, end0: nat, k: nat, i: nat, end: nat)
    requires Stands(was, now, t0, input, begin, end0, k, i, end) && i < end < |now| && k < |input| && IsBackspace(input[k])
    requires var to := if i == 0 then 0 else i - 1; later == Moved(now, to, i + 1, end - i)
    ensures Stands(was, later, t0, input, begin, end0, k + 1, if i == 0 then 0 else i - 1, if i == 0 then end - 1 else end - 2)
  {
    FoldNext(t0, input, k);
    var to := if i == 0 then 0 else i - 1;
    var kept := Fold(t0, input[..k]).kept;
    assert Edited(Fold(t0, input[..k]), input[k]).kept == if kept == "" then "" else kept[..|kept| - 1];
    hide Fold, Edited;
    MovedUp(now, to, i, end);
    hide Moved;
    assert now[..i][..to] == now[..to];
    assert later[end0..] == now[end0..];
    assert input[k + 1..] == input[k..][1..];
  }

  lemma MovedUp(now: string, to: nat, i: nat, end: nat)
    requires to <= i < end < |now| && i - to <= 1
    ensures var later := Moved(now, to, i + 1, end - i);
      && |later| == |now| && later[..to] == now[..to]
      && later[to..to + (end - i - 1)] == now[i..end][1..]
      && (forall k :: end <= k < |now| ==> later[k] == now[k])
  {
    var later := Moved(now, to, i + 1, end - i);
    assert later[to..to + (end - i)] == now[i + 1..end + 1];
    assert later[to..to + (end - i - 1)] == later[to..to + (end - i)][..end - i - 1] == now[i + 1..end + 1][..end - i - 1];
    assert now[i + 1..end + 1][..end - i - 1] == now[i + 1..end] == now[i..end][1..];
  }

  lemma ShownAtFirst(before: string, now: string, i: nat, echo: bool)
    requires i <= |now|
    ensures Shown(before, before, now, i, i, "", echo)
  {
    assert before + now[i..i] == before + "";
  }

  lemma ShownFlushed(before: string, seen: string, now: string, chunkStart: nat, i: nat, shown: string, echo: bool,
                     sep: string, written: string, later: string, start: nat, j: nat)
    requires Shown(before, seen, now, chunkStart, i, shown, echo)
    requires chunkStart <= i <= |now| && written == seen + Flushed(now, chunkStart, i, sep, echo)
    requires start <= j <= |later| && (echo ==> start == j)
    ensures Shown(before, written, later, start, j, shown + sep, echo)
  {
    if echo {
      assert written + later[start..j] == seen + now[chunkStart..i] + sep;
      assert before + shown + sep == before + (shown + sep);
    } else {
      assert written == seen;
    }
  }

  lemma ShownLater(before: string, seen: string, now: string, chunkStart: nat, i: nat, shown: string, echo: bool, later: string)
    requires Shown(before, seen, now, chunkStart, i, shown, echo) && i <= |later| && later[..i] == now[..i]
    ensures Shown(before, seen, later, chunkStart, i, shown, echo)
  {
    assert later[chunkStart..i] == later[..i][chunkStart..] == now[..i][chunkStart..] == now[chunkStart..i];
  }

  lemma ShownKept(before: string, seen: string, now: string, chunkStart: nat, i: nat, shown: string, echo: bool)
    requires Shown(before, seen, now, chunkStart, i, shown, echo) && i < |now|
    ensures Shown(before, seen, now, chunkStart, i + 1, shown + [now[i]], echo)
  {
    if echo {
      assert now[chunkStart..i + 1] == now[chunkStart..i] + [now[i]];
      assert seen + (now[chunkStart..i] + [now[i]]) == seen + now[chunkStart..i] + [now[i]];
      assert before + shown + [now[i]] == before + (shown + [now[i]]);
    }
  }

  /** At the end nothing is left that has not been shown. */
  lemma ShownAtLast(before: string, seen: string, now: string, chunkStart: nat, i: nat, shown: string, echo: bool, written: string)
    requires Shown(before, seen, now, chunkStart, i, shown, echo)
    requires chunkStart <= i <= |now| && written == seen + Flushed(now, chunkStart, i, "", echo)
    ensures written == before + if echo then shown else ""
  {
    assert now[chunkStart..i] + "" == now[chunkStart..i];
    assert seen + "" == seen && before + "" == before;
  }

  lemma AtFirst(was: string, begin: nat, end0: nat, skip: bool, before: string, echo: bool)
    requires begin <= end0 < |was|
    ensures var j := JobOf(was, begin, end0, skip, before, echo);
      At(j, was, begin, end0, skip, false, false, begin, before, 0) && j.echo == echo && j.end0 == end0
  {
    var j := JobOf(was, begin, end0, skip, before, echo);
    StandsAtFirst(j.was, Start(j), j.input, j.begin, j.end0);
    ShownAtFirst(j.before, j.was, j.begin, j.echo);
    hide Stands, Shown, Fold, FirstRemoval;
  }

  lemma Backspaces(c: char)
    ensures IsBackspace(c) <==> c == UNIX_BACKSPACE || c == DOS_BACKSPACE
  {
  }

  lemma AtNext(j: Job, v: View, k: nat)
    requires At(j, v.now, v.i, v.end, v.skip, v.newline, v.tooFar, v.start, v.written, k)
    ensures k <= |j.input| && v.start <= v.i && v.end <= j.end0 < |v.now| && (v.i >= v.end ==> v.i == v.end)
    ensures v.i < v.end ==> k < |j.input| && v.now[v.i] == j.input[k]
  {
    if v.i < v.end {
      StandsBefore(j.was, v.now, Start(j), j.input, j.begin, j.end0, k, v.i, v.end);
    }
  }

  lemma AtReturn(j: Job, v: View, k: nat, later: string, written: string, start: nat)
    requires At(j, v.now, v.i, v.end, v.skip, v.newline, v.tooFar, v.start, v.written, k) && v.i < v.end && k < |j.input| && v.i < |v.now| && v.now[v.i] == j.input[k] == '\r'
    requires later == v.now[v.i := '\n'] && start == (if j.echo then v.i + 1 else v.start) && v.start <= v.i
    requires written == v.written + Flushed(later, v.start, v.i, NEWLINE, j.echo)
    ensures At(j, later, v.i + 1, v.end, true, true, v.tooFar, start, written, k + 1)
  {
    FoldNext(Start(j), j.input, k);
    StandsAppended(j.was, v.now, later, Start(j), j.input, j.begin, j.end0, k, v.i, v.end, '\n');
    hide Stands, Fold, FirstRemoval;
    var shown := Fold(Start(j), j.input[..k]).echo;
    ShownLater(j.before, v.written, v.now, v.start, v.i, shown, j.echo, later);
    ShownFlushed(j.before, v.written, later, v.start, v.i, shown, j.echo, NEWLINE, written, later, start, v.i + 1);
  }

  lemma AtNewline(j: Job, v: View, k: nat, written: string, start: nat)
    requires At(j, v.now, v.i, v.end, v.skip, v.newline, v.tooFar, v.start, v.written, k) && v.i < v.end && k < |j.input| && v.i < |v.now| && v.now[v.i] == j.input[k] == '\n' && !v.skip
    requires start == (if j.echo then v.i + 1 else v.start) && v.start <= v.i
    requires written == v.written + Flushed(v.now, v.start, v.i, NEWLINE, j.echo)
    ensures At(j, v.now, v.i + 1, v.end, false, true, v.tooFar, start, written, k + 1)
  {
    FoldNext(Start(j), j.input, k);
    StandsAppended(j.was, v.now, v.now, Start(j), j.input, j.begin, j.end0, k, v.i, v.end, '\n');
    hide Stands, Fold, FirstRemoval;
    var shown := Fold(Start(j), j.input[..k]).echo;
    ShownFlushed(j.before, v.written, v.now, v.start, v.i, shown, j.echo, NEWLINE, written, v.now, start, v.i + 1);
  }

  lemma AtDropped(j: Job, v: View, k: nat, later: string)
    requires At(j, v.now, v.i, v.end, v.skip, v.newline, v.tooFar, v.start, v.written, k) && v.i < v.end < |v.now| && k < |j.input| && v.now[v.i] == j.input[k] == '\n' && v.skip
    requires later == Moved(v.now, v.i, v.i + 1, v.end - v.i - 1)
    ensures At(j, later, v.i, v.end - 1, false, v.newline, v.tooFar, v.start, v.written, k + 1)
  {
    FoldNext(Start(j), j.input, k);
    StandsDropped(j.was, v.now, later, Start(j), j.input, j.begin, j.end0, k, v.i, v.end);
    var shown := Fold(Start(j), j.input[..k]).echo;
    assert v.end <= j.end0;
    assert later[..v.i] == v.now[..v.i];
    ShownLater(j.before, v.written, v.now, v.start, v.i, shown, j.echo, later);
    hide Stands, Fold, FirstRemoval, Shown;
  }

  lemma AtRubbed(j: Job, v: View, k: nat, later: string, written: string)
    requires At(j, v.now, v.i, v.end, v.skip, v.newline, v.tooFar, v.start, v.written, k) && v.i < v.end < |v.now| && k < |j.input| && v.now[v.i] == j.input[k] && IsBackspace(j.input[k]) && v.start <= v.i
    requires var to := if v.i == 0 then 0 else v.i - 1; later == Moved(v.now, to, v.i + 1, v.end - v.i)
    requires written == v.written + Flushed(v.now, v.start, v.i, RUBOUT, j.echo)
    ensures var to := if v.i == 0 then 0 else v.i - 1;
      At(j, later, to, if v.i == 0 then v.end - 1 else v.end - 2, v.skip, v.newline, v.tooFar || v.end == j.end0, to, written, k + 1)
  {
    hide Stands, Fold, FirstRemoval, Shown, Moved, Flushed;
    FoldNext(Start(j), j.input, k);
    EndBefore(j, v, k);
    assert |later| == |v.now| by { MovedUp(v.now, if v.i == 0 then 0 else v.i - 1, v.i, v.end); }
    StandsRubbed(j.was, v.now, later, Start(j), j.input, j.begin, j.end0, k, v.i, v.end);
    var to := if v.i == 0 then 0 else v.i - 1;
    ShownFlushed(j.before, v.written, v.now, v.start, v.i, Fold(Start(j), j.input[..k]).echo, j.echo, RUBOUT, written, later, to, to);
  }

  lemma EndBefore(j: Job, v: View, k: nat)
    requires At(j, v.now, v.i, v.end, v.skip, v.newline, v.tooFar, v.start, v.written, k)
    ensures v.end <= j.end0
  {
  }

  lemma AtOther(j: Job, v: View, k: nat)
    requires At(j, v.now, v.i, v.end, v.skip, v.newline, v.tooFar, v.start, v.written, k) && v.i < v.end && k < |j.input| && v.i < |v.now| && v.now[v.i] == j.input[k]
    requires j.input[k] != '\r' && j.input[k] != '\n' && !IsBackspace(j.input[k])
    ensures At(j, v.now, v.i + 1, v.end, false, v.newline, v.tooFar, v.start, v.written, k + 1)
  {
    hide Stands, Shown, Fold, FirstRemoval, Start;
    FoldNext(Start(j), j.input, k);
    StandsAppended(j.was, v.now, v.now, Start(j), j.input, j.begin, j.end0, k, v.i, v.end, j.input[k]);
    ShownKept(j.before, v.written, v.now, v.start, v.i, Fold(Start(j), j.input[..k]).echo, j.echo);
  }

  lemma AtLast(j: Job, v: View, k: nat, written: string)
    requires At(j, v.now, v.i, v.end, v.skip, v.newline, v.tooFar, v.start, v.written, k) && v.i >= v.end && v.start <= v.i <= |v.now|
    requires written == v.written + Flushed(v.now, v.start, v.i, "", j.echo)
    ensures Normalized(j, v.now, v.end, v.skip, v.newline, v.tooFar, written)
  {
    StandsAtLast(j.was, v.now, Start(j), j.input, j.begin, j.end0, k, v.i, v.end);
    ShownAtLast(j.before, v.written, v.now, v.start, v.i, Fold(Start(j), j.input).echo, j.echo, written);
    hide Fold, FirstRemoval, Shown, Flushed;
  }
}
