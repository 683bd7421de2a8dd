/** public/cmd/vty.c: the line buffer of a terminal, edited in place, and the bytes echoed for it. The nodes that read a
    password, where nothing is echoed, are not part of this model. */
module Vtys {
  import opened LineEditors
  import opened Wrappers

  const BUFSIZ := 512

  class Vty {
    var buf: array<char>
    var cp: nat
    var length: nat
    var hist: seq<Option<string>>
    var hp: nat
    var hindex: nat
    var echoed: string       // what was written since the prompt
    ghost var known: nat     // how much of buf has been cleared or written since it was last enlarged
    const grown: nat -> char // what each byte that an enlarged buffer adds happens to hold

    ghost predicate InBounds()
      reads this
    {
      cp <= length < buf.Length
    }

    ghost function State(): Editor
      requires InBounds()
      reads this, buf
    {
      Editor(buf[..length], cp, hist, hp, hindex)
    }

    ghost function Stock(): Store
      reads this
    {
      Store(buf.Length, known)
    }

    /** Behind the line the known bytes are zero and the others as they came. */
    ghost predicate Tail(n: nat)
      reads `known, `buf, buf
    {
      && n <= known <= buf.Length && (forall i :: n <= i < known ==> buf[i] == '\0')
      && forall i :: known <= i < buf.Length ==> buf[i] == grown(i)
    }

    ghost function Shown(): Screen
      reads this
    {
      Feed(Blank(), echoed)
    }

    ghost predicate Valid()
      reads this, buf
    {
      InBounds() && Sound(State()) && HistFits() && Mirrors(Shown(), buf[..length], cp) && Tail(length)
    }

    /** Lines of the history fit into the buffer, which never shrinks. */
    ghost predicate HistFits()
      reads this
    {
      forall i :: 0 <= i < |hist| && hist[i].Some? ==> |hist[i].value| < buf.Length
    }

    /** vty_new and vty_create, at the first prompt. */
    constructor (grown: nat -> char)
      ensures Valid() && State() == Editor("", 0, seq(MAXHIST, _ => None), 0, 0) && Stock() == Store(BUFSIZ, BUFSIZ)
      ensures fresh(buf) && this.grown == grown
    {
      buf := new char[BUFSIZ](_ => '\0');
      cp, length, hist, hp, hindex, echoed := 0, 0, seq(MAXHIST, _ => None), 0, 0, "";
      known, this.grown := BUFSIZ, grown;
    }

    /** vty_write. */
    method Write(bytes: string)
      modifies this`echoed
      ensures echoed == old(echoed) + bytes && Shown() == Feed(old(Shown()), bytes)
    {
      FeedConcat(Blank(), echoed, bytes);
      echoed := echoed + bytes;
    }

    /** n times the backward character. */
    method StepBack(n: nat)
      modifies this`echoed
      ensures Shown() == Feed(old(Shown()), Backwards(n))
    {
      for i := 0 to n
        invariant Shown() == Feed(old(Shown()), Backwards(i))
      {
        FeedConcat(old(Shown()), Backwards(i), [BACKWARD]);
        assert Backwards(i) + [BACKWARD] == Backwards(i + 1);
        Write([BACKWARD]);
      }
    }

    /** vty_ensure. */
    method Ensure(n: nat)
      requires n <= length + 1 && InBounds()
      modifies this`buf
      ensures InBounds() && n < buf.Length && buf.Length >= old(buf.Length) && (buf == old(buf) || fresh(buf))
      ensures buf[..length] == old(buf[..length]) && Stock() == Ensured(old(Stock()), n)
      ensures old(Tail(length)) ==> Tail(length)
    {
      if buf.Length <= n {
        var larger := new char[buf.Length * 2];
        forall i | 0 <= i < larger.Length { larger[i] := if i < buf.Length then buf[i] else grown(i); }
        assert larger[..length] == buf[..length];
        buf := larger;
      }
    }

    lemma SoundText()
      requires Valid()
      ensures AllPrinting(buf[..length]) && InBounds() && Sound(State()) && HistFits() && Tail(length)
      ensures Mirrors(Shown(), buf[..length], cp)
    {
      hide Mirrors, Feed;
    }

    /** A character put into the line at the cursor. */
    method PutIn(c: char)
      requires InBounds() && Tail(length)
      modifies this`buf, this`known, buf
      ensures Tail(length + 1) && Stock() == Written(Ensured(old(Stock()), length + 1), length + 1)
      ensures InBounds() && length + 1 < buf.Length && buf.Length >= old(buf.Length) && (buf == old(buf) || fresh(buf))
      ensures var text := old(buf[..length]);
              buf[..length + 1] == text[..cp] + [c] + text[cp..] && buf[cp..length + 1] == [c] + text[cp..]
    {
      hide Tail;
      Ensure(length + 1);
      ghost var text := buf[..length];
      MoveUp(c);
      MadeRoom(buf[..], text, cp, c);
    }

    /** The rest of the line moves up for the character at the cursor. */
    method MoveUp(c: char)
      requires cp <= length && length + 1 < buf.Length && Tail(length)
      modifies this`known, buf
      ensures Tail(length + 1) && Stock() == Written(old(Stock()), length + 1) && buf[cp] == c
      ensures forall i :: 0 <= i < cp ==> buf[i] == old(buf[i])
      ensures forall i :: cp <= i < length ==> buf[i + 1] == old(buf[i])
    {
      forall i | cp <= i < length { buf[i + 1] := buf[i]; }
      buf[cp] := c;
      if known < length + 1 { known := length + 1; }
    }

    static lemma MadeRoom(b: string, text: string, cp: nat, c: char)
      requires cp <= |text| < |b| && b[cp] == c
      requires forall i :: 0 <= i < cp ==> b[i] == text[i]
      requires forall i :: cp <= i < |text| ==> b[i + 1] == text[i]
      ensures b[..|text| + 1] == text[..cp] + [c] + text[cp..] && b[cp..|text| + 1] == [c] + text[cp..]
    {
      forall i | cp < i <= |text| ensures b[i] == text[i - 1] { assert b[(i - 1) + 1] == text[i - 1]; }
    }

    /** Bytes, then backward characters. */
    method WriteAndStepBack(bytes: string, n: nat)
      modifies this`echoed
      ensures Shown() == Feed(Feed(old(Shown()), bytes), Backwards(n))
    {
      hide Feed;
      Write(bytes);
      StepBack(n);
    }

    /** The invariant again, from its parts. */
    lemma NowValid(e: Editor)
      requires InBounds() && Sound(e) && State() == e && HistFits() && Tail(length) && Mirrors(Shown(), e.text, e.cp)
      ensures Valid()
    {
    }

    /** vty_self_insert. */
    method SelfInsert(c: char)
      requires Valid() && Printing(c)
      modifies this`buf, this`cp, this`length, this`echoed, this`known, buf
      ensures Valid() && State() == Inserted(old(State()), c) && (buf == old(buf) || fresh(buf))
      ensures Stock() == Written(Ensured(old(Stock()), old(length) + 1), old(length) + 1)
    {
      hide Mirrors, Feed, Sound, Valid, Tail;
      SoundText();
      StillSound(State(), Char(c));
      ghost var e := State();
      var rest := length - cp;
      PutIn(c);
      EchoInsert(Shown(), e.text, cp, c);
      WriteAndStepBack(buf[cp..cp + rest + 1], rest);
      cp := cp + 1;
      length := length + 1;
      NowValid(Inserted(e, c));
    }

    /** vty_self_insert_overwrite. */
    method Overwrite(c: char)
      requires Valid() && Printing(c)
      modifies this`buf, this`cp, this`length, this`echoed, this`known, buf
      ensures Valid() && (buf == old(buf) || fresh(buf))
      ensures Stock() == Written(Ensured(old(Stock()), old(length) + 1), length)
      ensures var e := old(State());
              State() == if e.cp < |e.text| then e.(text := e.text[e.cp := c], cp := e.cp + 1) else Inserted(e, c)
    {
      hide Mirrors, Feed, Sound, Valid;
      SoundText();
      ghost var e := State();
      OverwrittenSound(e, c);
      Ensure(length + 1);
      buf[cp] := c;
      cp := cp + 1;
      if cp > length { length := length + 1; }
      if known < length { known := length; }
      assert State().text == if e.cp < |e.text| then e.text[e.cp := c] else e.text + [c];
      assert e.cp == |e.text| ==> Inserted(e, c).text == e.text + [c];
      EchoOver(Shown(), e.text, cp - 1, c);
      Write([c]);
      NowValid(if e.cp < |e.text| then e.(text := e.text[e.cp := c], cp := e.cp + 1) else Inserted(e, c));
    }

    /** vty_forward_char. */
    method Forward()
      requires Valid()
      modifies this`cp, this`echoed
      ensures Valid() && State() == Pressed(old(State()), Right)
    {
      hide Mirrors, Feed, Sound, Valid;
      SoundText();
      StillSound(State(), Right);
      if cp < length {
        EchoRight(Shown(), buf[..length], cp);
        Write([buf[cp]]);
        cp := cp + 1;
      }
      NowValid(Pressed(old(State()), Right));
    }

    /** vty_backward_char. */
    method Backward()
      requires Valid()
      modifies this`cp, this`echoed
      ensures Valid() && State() == Pressed(old(State()), Left)
    {
      hide Mirrors, Feed, Sound, Valid;
      SoundText();
      StillSound(State(), Left);
      if cp > 0 {
        EchoLeft(Shown(), buf[..length], cp);
        cp := cp - 1;
        Write([BACKWARD]);
      }
      NowValid(Pressed(old(State()), Left));
    }

    /** vty_beginning_of_line. */
    method BeginningOfLine()
      requires Valid()
      modifies this`cp, this`echoed
      ensures Valid() && State() == Pressed(old(State()), Home)
    {
      hide Sound, Mirrors, Feed;
      while cp > 0
        invariant Valid() && State() == old(State()).(cp := cp)
      {
        SoundText();
        Backward();
      }
    }

    /** vty_end_of_line. */
    method EndOfLine()
      requires Valid()
      modifies this`cp, this`echoed
      ensures Valid() && State() == Pressed(old(State()), End)
    {
      hide Sound, Mirrors, Feed;
      SoundText();
      while cp < length
        invariant Valid() && cp <= length && State() == old(State()).(cp := cp)
      {
        Forward();
        SoundText();
      }
    }

    /** vty_delete_char; on an empty line it leaves the mode and a new prompt follows. */
    method DeleteChar()
      requires Valid()
      modifies this`cp, this`length, this`echoed, buf
      ensures Valid() && State() == Pressed(old(State()), Delete)
    {
      hide Mirrors, Feed, Sound, Valid;
      SoundText();
      ghost var e := State();
      StillSound(e, Delete);
      if length == 0 {
        NewPrompt();
        cp := 0;
        FreshLine();
      } else if cp < length {
        EchoDelete(Shown(), e.text, cp);
        var size := length - cp;
        length := length - 1;
        TakeOut();
        Write(buf[cp..cp + size - 1]);
        WriteAndStepBack(" ", size);
      }
      NowValid(Pressed(e, Delete));
    }

    /** A new line and a prompt: the terminal line starts afresh. */
    method NewPrompt()
      modifies this`echoed
      ensures echoed == ""
    {
      echoed := "";
    }

    lemma FreshLine()
      requires InBounds() && echoed == "" && cp == 0
      ensures Mirrors(Shown(), buf[..length], cp) <==> length == 0
    {
    }

    /** The rest of the line moves down over the character at the cursor; length already counts one less. */
    method TakeOut()
      requires cp <= length && length + 1 < buf.Length && Tail(length + 1)
      modifies buf
      ensures Tail(length)
      ensures var text := old(buf[..length + 1]);
              buf[..length] == text[..cp] + text[cp + 1..] && buf[cp..length] == text[cp + 1..]
    {
      ghost var text := buf[..length + 1];
      forall i | cp <= i < length { buf[i] := buf[i + 1]; }
      buf[length] := '\0';
      assert buf[cp..length] == text[cp + 1..];
      assert buf[..length] == text[..cp] + text[cp + 1..];
    }

    /** vty_delete_backward_char. */
    method DeleteBackwardChar()
      requires Valid()
      modifies this`cp, this`length, this`echoed, buf
      ensures Valid() && State() == Pressed(old(State()), DeleteBack)
    {
      hide Sound, Mirrors, Feed;
      if cp == 0 { return; }
      Backward();
      DeleteChar();
    }

    /** vty_kill_line. */
    method KillLine()
      requires Valid()
      modifies this`cp, this`length, this`echoed, buf
      ensures Valid() && State() == Pressed(old(State()), KillRest)
    {
      hide Mirrors, Feed, Sound, Valid;
      SoundText();
      ghost var e := State();
      StillSound(e, KillRest);
      assert Pressed(e, KillRest).text == e.text[..cp];
      var size := length - cp;
      if size == 0 { NowValid(e); return; }
      EchoKill(Shown(), e.text, cp);
      WriteBlanks(size);
      StepBack(size);
      forall i | cp <= i < length { buf[i] := '\0'; }
      length := cp;
      assert buf[..length] == e.text[..cp];
      NowValid(Pressed(e, KillRest));
    }

    method WriteBlanks(n: nat)
      modifies this`echoed
      ensures Shown() == Feed(old(Shown()), Blanks(n))
    {
      for i := 0 to n
        invariant Shown() == Feed(old(Shown()), Blanks(i))
      {
        FeedConcat(old(Shown()), Blanks(i), " ");
        assert Blanks(i) + " " == Blanks(i + 1);
        Write(" ");
      }
    }

    /** vty_kill_line_from_beginning. */
    method KillLineFromBeginning()
      requires Valid()
      modifies this`cp, this`length, this`echoed, buf
      ensures Valid() && State() == Pressed(old(State()), KillAll)
    {
      hide Sound, Mirrors, Feed;
      BeginningOfLine();
      KillLine();
    }

    /** vty_forward_word. */
    method ForwardWord()
      requires Valid()
      modifies this`cp, this`echoed
      ensures Valid() && State() == Pressed(old(State()), WordRight)
    {
      hide Sound, Mirrors, Feed;
      ghost var text := buf[..length];
      while cp != length && buf[cp] != ' '
        invariant Valid() && State() == old(State()).(cp := cp) && PastWord(text, old(cp)) == PastWord(text, cp)
        decreases length - cp
      {
        assert buf[cp] == text[cp];
        Forward();
      }
      assert cp < length ==> text[cp] == buf[cp];
      ghost var middle := cp;
      while cp != length && buf[cp] == ' '
        invariant Valid() && State() == old(State()).(cp := cp) && PastBlanks(text, middle) == PastBlanks(text, cp)
        decreases length - cp
      {
        assert buf[cp] == text[cp];
        Forward();
      }
      assert cp < length ==> text[cp] == buf[cp];
    }

    /** vty_backward_word. */
    method BackwardWord()
      requires Valid()
      modifies this`cp, this`echoed
      ensures Valid() && State() == Pressed(old(State()), WordLeft)
    {
      hide Sound, Mirrors, Feed, Tail, HistFits, Shown;
      ghost var text := buf[..length];
      while cp > 0 && buf[cp - 1] == ' '
        invariant Valid() && State() == old(State()).(cp := cp) && BeforeBlanks(text, old(cp)) == BeforeBlanks(text, cp)
        decreases cp
      {
        assert buf[cp - 1] == text[cp - 1];
        Backward();
      }
      assert cp > 0 ==> text[cp - 1] == buf[cp - 1];
      ghost var middle := cp;
      while cp > 0 && buf[cp - 1] != ' '
        invariant Valid() && State() == old(State()).(cp := cp) && BeforeWord(text, middle) == BeforeWord(text, cp)
        decreases cp
      {
        assert buf[cp - 1] == text[cp - 1];
        Backward();
      }
      assert cp > 0 ==> text[cp - 1] == buf[cp - 1];
    }

    /** The stretch of the line e from its cursor to j is gone; the character at the cursor is the j-th. */
    ghost predicate GoneRight(e: Editor, j: nat)
      reads this, buf
    {
      && Valid() && e.cp <= j <= |e.text| && State() == Removed(e, e.cp, j)
      && (cp == length <==> j == |e.text|) && (cp < length ==> j < |e.text| && buf[cp] == e.text[j])
    }

    lemma RightGone(e: Editor, j: nat)
      requires Valid() && e.cp <= j <= |e.text| && State() == Removed(e, e.cp, j)
      ensures GoneRight(e, j) && cp == e.cp
    {
      hide Sound, Mirrors, Feed, Shown;
      assert buf[..length] == e.text[..e.cp] + e.text[j..];
    }

    method DeleteRight(ghost e: Editor, ghost j: nat)
      requires GoneRight(e, j) && cp < length
      modifies this`cp, this`length, this`echoed, buf
      ensures GoneRight(e, j + 1)
    {
      hide Sound, Mirrors, Feed, Shown;
      RightGone(e, j);
      DeleteChar();
      RemovedMore(e, e.cp, j);
      RightGone(e, j + 1);
    }

    /** vty_forward_kill_word. */
    method ForwardKillWord()
      requires Valid()
      modifies this`cp, this`length, this`echoed, buf
      ensures Valid() && State() == Pressed(old(State()), KillWordRight)
    {
      hide Sound, Mirrors, Feed, Shown, Removed;
      ghost var e, j := State(), cp;
      NoneRemoved(e, j);
      RightGone(e, j);
      while cp != length && buf[cp] == ' '
        invariant GoneRight(e, j) && PastBlanks(e.text, e.cp) == PastBlanks(e.text, j)
        decreases |e.text| - j
      {
        DeleteRight(e, j);
        j := j + 1;
      }
      ghost var middle := j;
      while cp != length && buf[cp] != ' '
        invariant GoneRight(e, j) && PastWord(e.text, middle) == PastWord(e.text, j)
        decreases |e.text| - j
      {
        DeleteRight(e, j);
        j := j + 1;
      }
    }

    /** The same to the left: the stretch of the line e from the cursor to where its cursor was is gone. */
    ghost predicate GoneLeft(e: Editor)
      reads this, buf
    {
      && Valid() && cp <= e.cp <= |e.text| && State() == Removed(e, cp, e.cp)
      && (cp > 0 ==> buf[cp - 1] == e.text[cp - 1])
    }

    lemma LeftGone(e: Editor)
      requires Valid() && cp <= e.cp <= |e.text| && State() == Removed(e, cp, e.cp)
      ensures GoneLeft(e)
    {
      hide Sound, Mirrors, Feed, Shown;
      assert buf[..length] == e.text[..cp] + e.text[e.cp..];
      assert cp > 0 ==> buf[..length][cp - 1] == e.text[..cp][cp - 1];
    }

    method DeleteLeft(ghost e: Editor)
      requires GoneLeft(e) && cp > 0
      modifies this`cp, this`length, this`echoed, buf
      ensures GoneLeft(e) && cp == old(cp) - 1
    {
      hide Sound, Mirrors, Feed, Shown;
      ghost var i := cp;
      DeleteBackwardChar();
      RemovedBefore(e, i, e.cp);
      LeftGone(e);
    }

    /** vty_backward_kill_word. */
    method BackwardKillWord()
      requires Valid()
      modifies this`cp, this`length, this`echoed, buf
      ensures Valid() && State() == Pressed(old(State()), KillWordLeft)
    {
      hide Sound, Mirrors, Feed, Shown, Removed, HistFits, Tail;
      ghost var e := State();
      NoneRemoved(e, cp);
      LeftGone(e);
      while cp > 0 && buf[cp - 1] == ' '
        invariant GoneLeft(e) && BeforeBlanks(e.text, e.cp) == BeforeBlanks(e.text, cp)
        decreases cp
      {
        DeleteLeft(e);
      }
      ghost var middle := cp;
      while cp > 0 && buf[cp - 1] != ' '
        invariant GoneLeft(e) && cp <= middle && BeforeWord(e.text, middle) == BeforeWord(e.text, cp)
        decreases cp
      {
        DeleteLeft(e);
      }
    }

    /** vty_transpose_chars. */
    method TransposeChars()
      requires Valid()
      modifies this`buf, this`cp, this`length, this`echoed, this`known, buf
      ensures Valid() && State() == Pressed(old(State()), Key.Transpose) && (buf == old(buf) || fresh(buf))
      ensures Stock() == Stocked(old(State()), old(Stock()), Key.Transpose)
    {
      hide Sound, Mirrors, Feed, Shown, Tail, HistFits;
      ghost var e := State();
      SoundText();
      if length < 2 || cp < 1 { return; }
      TextPrints(e);
      if cp == length {
        var c1, c2 := buf[cp - 1], buf[cp - 2];
        Backward();
        Backward();
        OverwriteTwo(c1, c2);
      } else {
        var c1, c2 := buf[cp], buf[cp - 1];
        Backward();
        OverwriteTwo(c1, c2);
      }
      assert Transposed(e).text
             == e.text[State().cp - 2 := e.text[State().cp - 1]][State().cp - 1 := e.text[State().cp - 2]];
    }

    method OverwriteTwo(c1: char, c2: char)
      requires Valid() && Printing(c1) && Printing(c2) && cp + 1 < length
      modifies this`buf, this`cp, this`length, this`echoed, this`known, buf
      ensures Valid() && (buf == old(buf) || fresh(buf)) && Stock() == Ensured(old(Stock()), old(length) + 1)
      ensures var e := old(State()); State() == e.(text := e.text[e.cp := c1][e.cp + 1 := c2], cp := e.cp + 2)
    {
      hide Sound, Mirrors, Feed, Shown, HistFits;
      ghost var e, larger := State(), Ensured(Stock(), length + 1);
      assert length <= known;
      Overwrite(c1);
      assert State() == e.(text := e.text[e.cp := c1], cp := e.cp + 1);
      assert length == |State().text| && |e.text[e.cp := c1]| == |e.text|;
      assert Stock() == larger && length <= larger.known && Ensured(larger, length + 1) == larger;
      Overwrite(c2);
      assert length == |State().text| == |e.text|;
    }

    static lemma TextPrints(e: Editor)
      requires Sound(e)
      ensures forall i :: 0 <= i < |e.text| ==> Printing(e.text[i])
    {
    }

    /** vty_history_print, of a line that is there. */
    method HistoryPrint()
      requires Valid() && hp < |hist| == MAXHIST && hist[hp].Some?
      modifies this`cp, this`length, this`echoed, this`known, buf
      ensures Valid() && State() == Recalled(old(State()), hp) && Stock() == Recalling(old(State()), old(Stock()), hp)
    {
      hide Sound, Mirrors, Feed, Tail;
      ghost var e := State();
      RecalledSound(e, hp);
      SoundText();
      KillLineFromBeginning();
      SoundText();
      var line := hist[hp].value;
      PutLine(line);
      EchoLine(Shown(), line);
      RedrawLine();
      NowValid(Recalled(e, hp));
    }

    /** A line copied into the empty buffer. */
    method PutLine(line: string)
      requires Tail(0) && |line| < buf.Length
      modifies this`cp, this`length, this`known, buf
      ensures InBounds() && buf[..length] == line && cp == length == |line| && Tail(length)
      ensures Stock() == Written(old(Stock()), length)
    {
      forall i | 0 <= i < |line| { buf[i] := line[i]; }
      cp, length := |line|, |line|;
      if known < length { known := length; }
    }

    /** vty_redraw_line. */
    method RedrawLine()
      requires InBounds()
      modifies this`cp, this`echoed
      ensures Shown() == Feed(old(Shown()), buf[..length]) && cp == length
    {
      Write(buf[..length]);
      cp := length;
    }

    /** vty_next_line. */
    method NextLine()
      requires Valid()
      modifies this`cp, this`length, this`echoed, this`hp, this`known, buf
      ensures Valid() && State() == Pressed(old(State()), Next) && Stock() == Stocked(old(State()), old(Stock()), Next)
    {
      hide Mirrors, Feed;
      if hp == hindex { return; }
      var tryIndex := if hp == MAXHIST - 1 then 0 else hp + 1;
      if hist[tryIndex].None? { return; }
      hp := tryIndex;
      HistoryPrint();
    }

    /** vty_previous_line. */
    method PreviousLine()
      requires Valid()
      modifies this`cp, this`length, this`echoed, this`hp, this`known, buf
      ensures Valid() && State() == Pressed(old(State()), Previous)
      ensures Stock() == Stocked(old(State()), old(Stock()), Previous)
    {
      hide Mirrors, Feed;
      var tryIndex := if hp == 0 then MAXHIST - 1 else hp - 1;
      if hist[tryIndex].None? { return; }
      hp := tryIndex;
      HistoryPrint();
    }

    /** vty_hist_add: the string in the buffer, not the line, goes into the history. They are the same exactly when the
        byte behind the line is zero. */
    method HistAdd()
      requires Valid()
      modifies this`hist, this`hp, this`hindex
      ensures State() == Remembered(old(State()), CString(buf[..])) && InBounds()
      ensures CString(buf[..]) == buf[..length] <==> buf[length] == '\0'
      ensures AllPrinting(CString(buf[..])) && '\0' in buf[..] ==> Sound(State()) && HistFits()
    {
      hide Mirrors, Feed, CString, Tail;
      SoundText();
      LineIsString(buf[..], length);
      assert buf[..][..length] == buf[..length];
      if length == 0 { return; }
      var line := StringIn(buf);
      var index := if hindex != 0 then hindex - 1 else MAXHIST - 1;
      if hist[index] == Some(line) {
        hp := hindex;
        return;
      }
      hist := hist[hindex := Some(line)];
      hindex := hindex + 1;
      if hindex == MAXHIST { hindex := 0; }
      hp := hindex;
    }

    /** The string that starts a buffer. Where no zero ends it within the buffer, the original reads on behind it, which
        is not part of this model. */
    static method StringIn(buf: array<char>) returns (line: string)
      ensures line == CString(buf[..]) && ('\0' in buf[..] ==> |line| < buf.Length)
    {
      var n := 0;
      while n < buf.Length && buf[n] != '\0'
        invariant 0 <= n <= buf.Length && CString(buf[..]) == buf[..n] + CString(buf[n..])
        invariant '\0' !in buf[..n]
      {
        assert buf[n..][1..] == buf[n + 1..];
        assert buf[..n] + [buf[n]] == buf[..n + 1];
        n := n + 1;
      }
      assert buf[..] == buf[..n] + buf[n..];
      line := buf[..n];
    }

    /** vty_clear_buf, after the line has been dropped. */
    method ClearLine()
      requires buf.Length > 0
      modifies this`cp, this`length, this`known, buf
      ensures InBounds() && cp == length == 0 && known == buf.Length && Tail(0)
    {
      cp, length, known := 0, 0, buf.Length;
      forall i | 0 <= i < buf.Length { buf[i] := '\0'; }
    }

    /** vty_execute, on a terminal: the command itself is not part of this model. */
    method Execute()
      requires Valid()
      modifies this`cp, this`length, this`echoed, this`hist, this`hp, this`hindex, this`known, buf
      ensures InBounds() && Stock() == Stocked(old(State()), old(Stock()), Enter)
      ensures State() == Entered(old(State()), old(CString(buf[..])))
      ensures State() == Pressed(old(State()), Enter) <==>
              (old(length) > 0 ==> EndsInZero(old(State()), old(Stock()), grown))
      ensures State() == Pressed(old(State()), Enter) || old(AllPrinting(CString(buf[..])) && '\0' in buf[..])
              ==> Valid()
    {
      hide Mirrors, Feed, CString, AllPrinting;
      ghost var e, line := State(), CString(buf[..]);
      StillSound(e, Enter);
      EnteredDiffers(e, line);
      HistAdd();
      ClearLine();
      NewPrompt();
      FreshLine();
    }

    /** vty_stop_input. */
    method StopInput()
      requires Valid()
      modifies this`cp, this`length, this`echoed, this`hp, this`known, buf
      ensures Valid() && State() == Pressed(old(State()), Stop) && Stock() == Stocked(old(State()), old(Stock()), Stop)
    {
      hide Mirrors, Feed;
      StillSound(State(), Stop);
      ClearLine();
      NewPrompt();
      hp := hindex;
      FreshLine();
    }

    /** vty_end_config: the cursor goes to the start but the line stays, so the terminal still shows the line if and
        only if there was none. */
    method EndConfig()
      requires Valid()
      modifies this`cp, this`echoed
      ensures InBounds() && cp == 0 && buf[..length] == old(buf[..length])
      ensures Valid() <==> old(length) == 0
    {
      hide Mirrors, Feed;
      NewPrompt();
      cp := 0;
      FreshLine();
    }

    /** A key, as vty_read has it: it does what the editor says unless it enters a line with no zero behind it. */
    method Press(key: Key)
      requires Valid()
      modifies this, buf
      ensures (buf == old(buf) || fresh(buf)) && InBounds() && Stock() == Stocked(old(State()), old(Stock()), key)
      ensures State() == Pressed(old(State()), key) <==>
              (key == Enter && old(length) > 0 ==> EndsInZero(old(State()), old(Stock()), grown))
      ensures State() == Pressed(old(State()), key) ==> Valid()
      ensures key == Enter ==> State() == Entered(old(State()), old(CString(buf[..])))
      ensures key == Enter && old(AllPrinting(CString(buf[..])) && '\0' in buf[..]) ==> Valid()
    {
      hide Valid, Sound, CString, AllPrinting, Pressed, Stocked, EndsInZero, Entered, Tail;
      SoundText();
      if key == Enter {
        EnterIs(State(), Stock());
        Execute();
      } else {
        Edit(key);
        SoundText();
      }
    }

    static lemma EnterIs(e: Editor, s: Store)
      requires Sound(e)
      ensures Pressed(e, Enter) == Entered(e, e.text) && Stocked(e, s, Enter) == s.(known := s.max)
    {
    }

    method Edit(key: Key)
      requires Valid() && key != Enter
      modifies this, buf
      ensures Valid() && State() == Pressed(old(State()), key) && Stock() == Stocked(old(State()), old(Stock()), key)
      ensures buf == old(buf) || fresh(buf)
    {
      hide Valid, Sound, CString, AllPrinting;
      SoundText();
      match key
      case Char(c) => { if Printing(c) { SelfInsert(c); } }
      case Left => Backward();
      case Right => Forward();
      case Home => BeginningOfLine();
      case End => EndOfLine();
      case Delete => DeleteChar();
      case DeleteBack => DeleteBackwardChar();
      case KillRest => KillLine();
      case KillAll => KillLineFromBeginning();
      case WordLeft => BackwardWord();
      case WordRight => ForwardWord();
      case KillWordRight => ForwardKillWord();
      case KillWordLeft => BackwardKillWord();
      case Transpose => TransposeChars();
      case Next => NextLine();
      case Previous => PreviousLine();
      case Stop => StopInput();
    }
  }

  /** Keys are pressed up to the first that does not do what the editor says. There is none if and only if every line is
      entered with a zero behind it, and then the line is what the keys say and the terminal shows it. */
  method PressAll(vty: Vty, keys: seq<Key>) returns (done: nat)
    requires vty.Valid()
    modifies vty, vty.buf
    ensures Sound(old(vty.State())) && done <= |keys| && vty.InBounds()
    ensures done == |keys| <==> Terminated(old(vty.State()), old(vty.Stock()), keys, vty.grown)
    ensures done == |keys| ==> vty.Valid() && vty.State() == PressedAll(old(vty.State()), keys)
    ensures done == |keys| ==> Mirrors(vty.Shown(), vty.State().text, vty.cp) && vty.cp <= vty.length < vty.buf.Length
    ensures done < |keys| ==> vty.State() != PressedAll(old(vty.State()), keys[..done + 1])
  {
    hide Vty.Valid, Sound, EndsInZero;
    IsSound(vty);
    done := 0;
    ghost var e0, s0 := vty.State(), vty.Stock();
    assert keys[0..] == keys && keys[..0] == [];
    while done < |keys|
      invariant 0 <= done <= |keys| && vty.Valid() && (vty.buf == old(vty.buf) || fresh(vty.buf)) && vty.InBounds()
      invariant Sound(e0) && Sound(vty.State()) && vty.State() == PressedAll(e0, keys[..done])
      invariant Terminated(e0, s0, keys, vty.grown) == Terminated(vty.State(), vty.Stock(), keys[done..], vty.grown)
    {
      assert keys[done..][1..] == keys[done + 1..] && keys[..done] + [keys[done]] == keys[..done + 1];
      PressedMore(e0, keys[..done], keys[done]);
      var stops := keys[done] == Enter && vty.length > 0 && vty.buf[vty.length] != '\0';
      ZeroBehind(vty);
      StillSound(vty.State(), keys[done]);
      vty.Press(keys[done]);
      if stops { return; }
      done := done + 1;
    }
    assert keys[..done] == keys;
    IsSound(vty);
  }

  function As(n: nat): string { seq(n, _ => 'a') }

  /** A line of 512 characters fills the first buffer, and the larger one is not cleared behind it: what is entered and
      recalled has a character that was never typed. */
  method EnterLongLine(grown: nat -> char) returns (vty: Vty)
    requires Printing(grown(BUFSIZ)) && grown(BUFSIZ + 1) == '\0'
    ensures vty.Valid() && vty.State().text == As(BUFSIZ) + [grown(BUFSIZ)]
  {
    hide Vty.Valid, Sound, CString, AllPrinting, Feed;
    vty := new Vty(grown);
    IsSound(vty);
    for i := 0 to BUFSIZ
      invariant vty.Valid() && vty.InBounds() && fresh(vty) && fresh(vty.buf)
      invariant Sound(vty.State()) && vty.State() == Editor(As(i), i, seq(MAXHIST, _ => None), 0, 0)
      invariant vty.Stock() == if i < BUFSIZ then Store(BUFSIZ, BUFSIZ) else Store(2 * BUFSIZ, BUFSIZ)
    {
      vty.Press(Char('a'));
      assert As(i)[..i] + ['a'] + As(i)[i..] == As(i + 1);
      IsSound(vty);
    }
    BehindIt(vty);
    EnterAndRecall(vty.State(), As(BUFSIZ) + [grown(BUFSIZ)]);
    vty.Press(Enter);
    IsSound(vty);
    vty.Press(Previous);
  }

  lemma BehindIt(vty: Vty)
    requires vty.Valid() && vty.InBounds() && vty.State().text == As(BUFSIZ) && vty.Stock() == Store(2 * BUFSIZ, BUFSIZ)
    requires Printing(vty.grown(BUFSIZ)) && vty.grown(BUFSIZ + 1) == '\0'
    ensures CString(vty.buf[..]) == As(BUFSIZ) + [vty.grown(BUFSIZ)] && AllPrinting(CString(vty.buf[..]))
            && '\0' in vty.buf[..]
  {
    hide Sound, Mirrors, CString;
    var b := vty.buf[..];
    assert b[..BUFSIZ] == As(BUFSIZ) && b[BUFSIZ] == vty.grown(BUFSIZ) && b[BUFSIZ + 1] == '\0';
    assert b[..BUFSIZ + 1] == As(BUFSIZ) + [vty.grown(BUFSIZ)];
    LineIsString(b, BUFSIZ + 1);
  }

  lemma IsSound(vty: Vty)
    requires vty.Valid()
    ensures vty.InBounds() && Sound(vty.State()) && Mirrors(vty.Shown(), vty.State().text, vty.cp)
  {
    hide Sound, Mirrors;
  }

  lemma ZeroBehind(vty: Vty)
    requires vty.Valid()
    ensures vty.InBounds() && (vty.buf[vty.length] == '\0' <==> EndsInZero(vty.State(), vty.Stock(), vty.grown))
  {
    hide Sound, Mirrors;
  }

  lemma NoneRemoved(e: Editor, i: nat)
    requires i == e.cp <= |e.text|
    ensures Removed(e, i, i) == e
  {
    assert e.text[..i] + e.text[i..] == e.text;
  }

  lemma RemovedMore(e: Editor, i: nat, j: nat)
    requires i <= j < |e.text|
    ensures i < |Removed(e, i, j).text| && Removed(Removed(e, i, j), i, i + 1) == Removed(e, i, j + 1)
  {
    var f := Removed(e, i, j);
    assert f.text[..i] + f.text[i + 1..] == e.text[..i] + e.text[j + 1..];
  }

  lemma RemovedBefore(e: Editor, i: nat, j: nat)
    requires 0 < i <= j <= |e.text|
    ensures i <= |Removed(e, i, j).text| && Removed(Removed(e, i, j), i - 1, i) == Removed(e, i - 1, j)
  {
    var f := Removed(e, i, j);
    assert f.text[..i - 1] + f.text[i..] == e.text[..i - 1] + e.text[j..];
  }

  lemma RecalledSound(e: Editor, i: nat)
    requires Sound(e) && i < MAXHIST && e.hist[i].Some?
    ensures Sound(Recalled(e, i)) && AllPrinting(e.hist[i].value)
  {
  }

  lemma EchoLine(s: Screen, line: string)
    requires Mirrors(s, "", 0) && AllPrinting(line)
    ensures Mirrors(Feed(s, line), line, |line|)
  {
    hide Feed;
    FeedText(s, line);
  }

  function Blanks(n: nat): string { seq(n, _ => ' ') }

  lemma EchoDelete(s: Screen, text: string, cp: nat)
    requires Mirrors(s, text, cp) && cp < |text| && AllPrinting(text)
    ensures var t := Feed(Feed(Feed(s, text[cp + 1..]), " "), Backwards(|text| - cp));
            Mirrors(t, text[..cp] + text[cp + 1..], cp)
  {
    hide Feed;
    FeedConcat(s, text[cp + 1..], " ");
    FeedText(s, text[cp + 1..] + " ");
    FeedBackwards(Feed(s, text[cp + 1..] + " "), |text| - cp);
  }

  lemma EchoKill(s: Screen, text: string, cp: nat)
    requires Mirrors(s, text, cp)
    ensures Mirrors(Feed(Feed(s, Blanks(|text| - cp)), Backwards(|text| - cp)), text[..cp], cp)
  {
    hide Feed;
    var n := |text| - cp;
    FeedText(s, Blanks(n));
    FeedBackwards(Feed(s, Blanks(n)), n);
  }

  lemma OverwrittenSound(e: Editor, c: char)
    requires Sound(e) && Printing(c)
    ensures Sound(if e.cp < |e.text| then e.(text := e.text[e.cp := c], cp := e.cp + 1) else Inserted(e, c))
  {
  }

  lemma EchoOver(s: Screen, text: string, cp: nat, c: char)
    requires Mirrors(s, text, cp) && Printing(c)
    ensures Mirrors(Feed(s, [c]), if cp < |text| then text[cp := c] else text + [c], cp + 1)
  {
    hide Feed;
    FeedText(s, [c]);
  }

  lemma EchoRight(s: Screen, text: string, cp: nat)
    requires Mirrors(s, text, cp) && cp < |text| && AllPrinting(text)
    ensures Mirrors(Feed(s, [text[cp]]), text, cp + 1)
  {
    hide Feed;
    FeedText(s, [text[cp]]);
  }

  lemma EchoLeft(s: Screen, text: string, cp: nat)
    requires Mirrors(s, text, cp) && cp > 0
    ensures Mirrors(Feed(s, [BACKWARD]), text, cp - 1)
  {
    assert [BACKWARD][..0] == "" && Feed(s, "") == s;
  }

  /** Echoing the new character and the rest, and stepping back over the rest. */
  lemma EchoInsert(s: Screen, text: string, cp: nat, c: char)
    requires Mirrors(s, text, cp) && AllPrinting(text) && Printing(c)
    ensures Mirrors(Feed(Feed(s, [c] + text[cp..]), Backwards(|text| - cp)), text[..cp] + [c] + text[cp..], cp + 1)
  {
    hide Feed;
    var t := [c] + text[cp..];
    FeedText(s, t);
    FeedBackwards(Feed(s, t), |text| - cp);
  }
}
