/** What the keys of public/cmd/vty.c do to the line, and what a terminal shows of the bytes echoed. */
module LineEditors {
  import opened Wrappers

  // ---------- The terminal ----------

  const BACKWARD := '\U{8}'

  /** One line of a terminal, to the right of the prompt; it is blank after its last cell. */
  datatype Screen = Screen(cells: string, cursor: nat)

  function Blank(): Screen { Screen("", 0) }

  predicate Proper(s: Screen) { s.cursor <= |s.cells| }

  predicate Printing(c: char) { ' ' <= c <= '~' }

  predicate AllPrinting(t: string) { forall i :: 0 <= i < |t| ==> Printing(t[i]) }

  /** A printing character overwrites the cell at the cursor and steps on; 0x08 steps back. */
  function Put(s: Screen, c: char): Screen {
    if c == BACKWARD then s.(cursor := if s.cursor == 0 then 0 else s.cursor - 1)
    else if s.cursor < |s.cells| then Screen(s.cells[s.cursor := c], s.cursor + 1)
    else Screen(s.cells + [c], s.cursor + 1)
  }

  function Feed(s: Screen, bytes: string): Screen {
    if bytes == "" then s
    else
      var n := |bytes| - 1;
      Put(Feed(s, bytes[..n]), bytes[n])
  }

  lemma {:induction false} FeedConcat(s: Screen, a: string, b: string)
    ensures Feed(s, a + b) == Feed(Feed(s, a), b)
  {
    if b == "" {
      assert a + b == a;
    } else {
      var n := |b| - 1;
      assert (a + b)[..|a + b| - 1] == a + b[..n];
      FeedConcat(s, a, b[..n]);
    }
  }

  /** t written over the cells from k on. */
  function Over(cells: string, k: nat, t: string): string
    requires k <= |cells|
  {
    cells[..k] + t + if k + |t| < |cells| then cells[k + |t|..] else ""
  }

  lemma {:induction false} FeedText(s: Screen, t: string)
    requires Proper(s) && AllPrinting(t)
    ensures Feed(s, t) == Screen(Over(s.cells, s.cursor, t), s.cursor + |t|)
  {
    if t == "" {
      assert Over(s.cells, s.cursor, t) == s.cells;
    } else {
      var n := |t| - 1;
      FeedText(s, t[..n]);
      var u := Feed(s, t[..n]);
      assert Printing(t[n]) && t[n] != BACKWARD;
      assert Put(u, t[n]).cells == Over(s.cells, s.cursor, t);
    }
  }

  function Backwards(n: nat): string { seq(n, _ => BACKWARD) }

  lemma {:induction false} FeedBackwards(s: Screen, n: nat)
    requires n <= s.cursor
    ensures Feed(s, Backwards(n)) == s.(cursor := s.cursor - n)
  {
    if n > 0 {
      assert Backwards(n)[..n - 1] == Backwards(n - 1);
      FeedBackwards(s, n - 1);
    }
  }

  /** The screen shows exactly the line, and the cursor is where it should be. */
  predicate Mirrors(s: Screen, text: string, cp: nat) {
    && s.cursor == cp <= |text| <= |s.cells| && s.cells[..|text|] == text
    && forall i :: |text| <= i < |s.cells| ==> s.cells[i] == ' '
  }

  // ---------- The line and its history ----------

  const MAXHIST := 20

  datatype Editor = Editor(text: string, cp: nat, hist: seq<Option<string>>, hp: nat, hindex: nat)

  predicate Sound(e: Editor) {
    && e.cp <= |e.text| && AllPrinting(e.text) && |e.hist| == MAXHIST && e.hp < MAXHIST && e.hindex < MAXHIST
    && forall i :: 0 <= i < MAXHIST && e.hist[i].Some? ==> AllPrinting(e.hist[i].value)
  }

  datatype Key =
    | Char(c: char) | Left | Right | Home | End | Delete | DeleteBack | KillRest | KillAll | WordLeft | WordRight
    | KillWordRight | KillWordLeft | Transpose | Next | Previous | Enter | Stop

  /** Where the blanks, or the word, at position i end; and where those before position i begin. */
  function PastBlanks(t: string, i: nat): (j: nat)
    requires i <= |t|
    ensures i <= j <= |t| && (j < |t| ==> t[j] != ' ') && forall k :: i <= k < j ==> t[k] == ' '
    decreases |t| - i
  {
    if i < |t| && t[i] == ' ' then PastBlanks(t, i + 1) else i
  }

  function PastWord(t: string, i: nat): (j: nat)
    requires i <= |t|
    ensures i <= j <= |t| && (j < |t| ==> t[j] == ' ') && forall k :: i <= k < j ==> t[k] != ' '
    decreases |t| - i
  {
    if i < |t| && t[i] != ' ' then PastWord(t, i + 1) else i
  }

  function BeforeBlanks(t: string, i: nat): (j: nat)
    requires i <= |t|
    ensures j <= i && (j > 0 ==> t[j - 1] != ' ') && forall k :: j <= k < i ==> t[k] == ' '
  {
    if i > 0 && t[i - 1] == ' ' then BeforeBlanks(t, i - 1) else i
  }

  function BeforeWord(t: string, i: nat): (j: nat)
    requires i <= |t|
    ensures j <= i && (j > 0 ==> t[j - 1] == ' ') && forall k :: j <= k < i ==> t[k] != ' '
  {
    if i > 0 && t[i - 1] != ' ' then BeforeWord(t, i - 1) else i
  }

  function Inserted(e: Editor, c: char): Editor
    requires e.cp <= |e.text|
  {
    e.(text := e.text[..e.cp] + [c] + e.text[e.cp..], cp := e.cp + 1)
  }

  /** The line without the stretch from i to j; the cursor at i. */
  function Removed(e: Editor, i: nat, j: nat): Editor
    requires i <= j <= |e.text|
  {
    e.(text := e.text[..i] + e.text[j..], cp := i)
  }

  /** The last character before the cursor at the end of the line, else the one under it, changes places with the one
      in front. */
  function Transposed(e: Editor): Editor
    requires e.cp <= |e.text|
  {
    if |e.text| < 2 || e.cp < 1 then e
    else
      var at := if e.cp == |e.text| then e.cp - 1 else e.cp;
      e.(text := e.text[at - 1 := e.text[at]][at := e.text[at - 1]], cp := at + 1)
  }

  function Recalled(e: Editor, i: nat): Editor
    requires i < |e.hist|
  {
    match e.hist[i]
    case None => e
    case Some(line) => e.(text := line, cp := |line|, hp := i)
  }

  function Before(i: nat): nat
    requires i < MAXHIST
  {
    if i == 0 then MAXHIST - 1 else i - 1
  }

  function Behind(i: nat): nat
    requires i < MAXHIST
  {
    if i == MAXHIST - 1 then 0 else i + 1
  }

  /** A line goes into the history, unless nothing was typed or it is the same as the one before. */
  function Remembered(e: Editor, line: string): Editor
    requires Sound(e)
  {
    if e.text == "" then e
    else if e.hist[Before(e.hindex)] == Some(line) then e.(hp := e.hindex)
    else e.(hist := e.hist[e.hindex := Some(line)], hindex := Behind(e.hindex), hp := Behind(e.hindex))
  }

  /** The line is over and this is what goes into the history of it. */
  function Entered(e: Editor, line: string): Editor
    requires Sound(e)
  {
    Remembered(e, line).(text := "", cp := 0)
  }

  function Pressed(e: Editor, key: Key): Editor
    requires Sound(e)
  {
    match key
    case Char(c) => if Printing(c) then Inserted(e, c) else e
    case Left => if e.cp > 0 then e.(cp := e.cp - 1) else e
    case Right => if e.cp < |e.text| then e.(cp := e.cp + 1) else e
    case Home => e.(cp := 0)
    case End => e.(cp := |e.text|)
    case Delete => if e.cp < |e.text| then Removed(e, e.cp, e.cp + 1) else e
    case DeleteBack => if e.cp > 0 then Removed(e, e.cp - 1, e.cp) else e
    case KillRest => Removed(e, e.cp, |e.text|)
    case KillAll => Removed(e, 0, |e.text|)
    case WordLeft => e.(cp := BeforeWord(e.text, BeforeBlanks(e.text, e.cp)))
    case WordRight => e.(cp := PastBlanks(e.text, PastWord(e.text, e.cp)))
    case KillWordRight => Removed(e, e.cp, PastWord(e.text, PastBlanks(e.text, e.cp)))
    case KillWordLeft => Removed(e, BeforeWord(e.text, BeforeBlanks(e.text, e.cp)), e.cp)
    case Transpose => Transposed(e)
    case Next => if e.hp == e.hindex then e else Recalled(e, Behind(e.hp))
    case Previous => Recalled(e, Before(e.hp))
    case Enter => Entered(e, e.text)
    case Stop => e.(text := "", cp := 0, hp := e.hindex)
  }

  lemma StillSound(e: Editor, key: Key)
    requires Sound(e)
    ensures Sound(Pressed(e, key))
  {
    hide AllPrinting, PastBlanks, PastWord, BeforeBlanks, BeforeWord, Transposed, Remembered;
    forall i: nat, j: nat | i <= j <= |e.text| ensures AllPrinting(e.text[..i] + e.text[j..]) { Without(e.text, i, j); }
    Without("", 0, 0);
    match key
    case Char(c) => if Printing(c) { With(e.text, e.cp, c); }
    case Transpose => Exchanged(e);
    case Enter => Kept(e);
    case _ =>
  }

  lemma Without(t: string, i: nat, j: nat)
    requires i <= j <= |t| && AllPrinting(t)
    ensures AllPrinting(t[..i] + t[j..]) && AllPrinting("")
  {
  }

  lemma With(t: string, i: nat, c: char)
    requires i <= |t| && AllPrinting(t) && Printing(c)
    ensures AllPrinting(t[..i] + [c] + t[i..])
  {
  }

  lemma Exchanged(e: Editor)
    requires Sound(e)
    ensures Sound(Transposed(e))
  {
  }

  lemma Kept(e: Editor)
    requires Sound(e)
    ensures Sound(Remembered(e, e.text))
  {
    hide AllPrinting;
  }

  ghost function PressedAll(e: Editor, keys: seq<Key>): Editor
    requires Sound(e)
    decreases |keys|
  {
    if keys == [] then e
    else
      StillSound(e, keys[0]);
      PressedAll(Pressed(e, keys[0]), keys[1..])
  }

  lemma {:induction false} PressedMore(e: Editor, keys: seq<Key>, key: Key)
    requires Sound(e)
    ensures Sound(PressedAll(e, keys)) && PressedAll(e, keys + [key]) == Pressed(PressedAll(e, keys), key)
    decreases |keys|
  {
    hide Sound, Pressed;
    if keys == [] {
      assert ([key])[1..] == [];
      StillSound(e, key);
    } else {
      StillSound(e, keys[0]);
      assert (keys + [key])[1..] == keys[1..] + [key];
      PressedMore(Pressed(e, keys[0]), keys[1..], key);
    }
  }

  // ---------- The bytes behind the line ----------

  /** The string that starts the bytes b. */
  function CString(b: string): string {
    if b == "" || b[0] == '\0' then "" else [b[0]] + CString(b[1..])
  }

  /** It is the line exactly when the byte behind the line ends it. */
  lemma {:induction false} LineIsString(b: string, n: nat)
    requires n < |b| && AllPrinting(b[..n])
    ensures CString(b) == b[..n] <==> b[n] == '\0'
    ensures b[..n] <= CString(b)
  {
    if n > 0 {
      assert b[..n][0] == b[0] && b[1..][..n - 1] == b[..n][1..];
      LineIsString(b[1..], n - 1);
      assert b[..n] == [b[0]] + b[1..][..n - 1];
    }
  }

  /** How large the buffer is, and how much of it has been cleared or written since it was last enlarged. */
  datatype Store = Store(max: nat, known: nat)

  function Ensured(s: Store, n: nat): Store {
    if s.max <= n then s.(max := s.max * 2) else s
  }

  function Written(s: Store, n: nat): Store {
    if s.known < n then s.(known := n) else s
  }

  function Recalling(e: Editor, s: Store, i: nat): Store
    requires i < |e.hist|
  {
    match e.hist[i]
    case None => s
    case Some(line) => Written(s, |line|)
  }

  /** What a key does to the buffer that holds the line. */
  function Stocked(e: Editor, s: Store, key: Key): Store
    requires Sound(e)
  {
    match key
    case Char(c) => if Printing(c) then Written(Ensured(s, |e.text| + 1), |e.text| + 1) else s
    case Transpose => if |e.text| < 2 || e.cp < 1 then s else Ensured(s, |e.text| + 1)
    case Next => if e.hp == e.hindex then s else Recalling(e, s, Behind(e.hp))
    case Previous => Recalling(e, s, Before(e.hp))
    case Enter => s.(known := s.max)
    case Stop => s.(known := s.max)
    case _ => s
  }

  /** The byte behind the line is zero: it has been cleared, or is one that the larger buffer came with. */
  predicate EndsInZero(e: Editor, s: Store, grown: nat -> char) {
    |e.text| < s.known || grown(|e.text|) == '\0'
  }

  /** Whenever a line is entered, the byte behind it is zero. */
  ghost predicate Terminated(e: Editor, s: Store, keys: seq<Key>, grown: nat -> char)
    requires Sound(e)
    decreases |keys|
  {
    if keys == [] then true
    else
      StillSound(e, keys[0]);
      (keys[0] == Enter && e.text != "" ==> EndsInZero(e, s, grown))
      && Terminated(Pressed(e, keys[0]), Stocked(e, s, keys[0]), keys[1..], grown)
  }

  /** As long as lines stay shorter than the known part of the buffer, every one ends in zero. */
  lemma {:induction false} ShortLines(e: Editor, s: Store, keys: seq<Key>, grown: nat -> char)
    requires Sound(e) && s.known <= s.max && forall k :: 0 <= k <= |keys| ==> |PressedAll(e, keys[..k]).text| < s.known
    ensures Terminated(e, s, keys, grown)
    decreases |keys|
  {
    hide Sound, Pressed;
    assert PressedAll(e, keys[..0]) == e;
    if keys != [] {
      StillSound(e, keys[0]);
      var f, t, rest := Pressed(e, keys[0]), Stocked(e, s, keys[0]), keys[1..];
      forall k | 0 <= k <= |rest| ensures |PressedAll(f, rest[..k]).text| < s.known {
        assert keys[..k + 1][0] == keys[0] && keys[..k + 1][1..] == rest[..k];
        assert |PressedAll(e, keys[..k + 1]).text| < s.known;
      }
      assert s.known <= t.known && t.known <= t.max by {
        assert |PressedAll(f, rest[..0]).text| < s.known;
        Fits(e, s, keys[0]);
      }
      ShortLines(f, t, rest, grown);
    }
  }

  lemma Fits(e: Editor, s: Store, key: Key)
    requires Sound(e) && s.known <= s.max && |Pressed(e, key).text| < s.known
    ensures s.known <= Stocked(e, s, key).known <= Stocked(e, s, key).max
  {
  }

  /** What goes into the history is the line if and only if the strings are the same. */
  lemma EnteredDiffers(e: Editor, line: string)
    requires Sound(e)
    ensures Entered(e, line) == Pressed(e, Enter) <==> e.text == "" || line == e.text
  {
    var f, g := Remembered(e, line), Remembered(e, e.text);
    if e.text != "" && line != e.text {
      assert Behind(e.hindex) != e.hindex;
      if f.hindex == g.hindex {
        assert f.hist[e.hindex] == Some(line) && g.hist[e.hindex] == Some(e.text);
      }
    }
  }

  // ---------- What the keys mean to the user ----------

  /** Rubbing out what was just typed restores everything. */
  lemma TypeAndRubOut(e: Editor, c: char)
    requires Sound(e) && Printing(c)
    ensures Sound(Pressed(e, Char(c))) && Pressed(Pressed(e, Char(c)), DeleteBack) == e
  {
    StillSound(e, Char(c));
    var f := Pressed(e, Char(c));
    assert f.text[..e.cp] + f.text[e.cp + 1..] == e.text;
  }

  predicate AllBlank(t: string) { forall i :: 0 <= i < |t| ==> t[i] == ' ' }

  predicate NoBlank(t: string) { ' ' !in t }

  /** A word, and the blanks behind it, as they stand before the rest of a line: neither goes on in the rest. */
  predicate WordThenBlanks(w: string, b: string, rest: string) {
    NoBlank(w) && AllBlank(b) && (rest != "" ==> b != "" && rest[0] != ' ')
  }

  predicate BlanksThenWord(b: string, w: string, rest: string) {
    AllBlank(b) && NoBlank(w) && (rest != "" ==> w != "" && rest[0] == ' ')
  }

  /** The same in front of the cursor: the word does not begin earlier. */
  predicate WordBefore(front: string, w: string, b: string) {
    NoBlank(w) && AllBlank(b) && (front != "" ==> w != "" && front[|front| - 1] == ' ')
  }

  /** What a line is made of around the cursor. */
  predicate At(e: Editor, front: string, behind: string) {
    e.text == front + behind && e.cp == |front|
  }

  lemma {:induction false} PassWord(t: string, i: nat, j: nat)
    requires i <= j <= |t| && (forall m :: i <= m < j ==> t[m] != ' ') && (j < |t| ==> t[j] == ' ')
    ensures PastWord(t, i) == j
    decreases j - i
  {
    if i < j { PassWord(t, i + 1, j); }
  }

  lemma {:induction false} PassBlanks(t: string, i: nat, j: nat)
    requires i <= j <= |t| && (forall m :: i <= m < j ==> t[m] == ' ') && (j < |t| ==> t[j] != ' ')
    ensures PastBlanks(t, i) == j
    decreases j - i
  {
    if i < j { PassBlanks(t, i + 1, j); }
  }

  lemma {:induction false} BackOver(t: string, i: nat, j: nat)
    requires i <= j <= |t|
    ensures (forall m :: i <= m < j ==> t[m] != ' ') && (i > 0 ==> t[i - 1] == ' ') ==> BeforeWord(t, j) == i
    ensures (forall m :: i <= m < j ==> t[m] == ' ') && (i > 0 ==> t[i - 1] != ' ') ==> BeforeBlanks(t, j) == i
  {
    if i < j { BackOver(t, i, j - 1); }
  }

  /** Where words and blanks end, and begin, is where the characters say. */
  lemma WordThenBlanksEnd(t: string, i: nat, j: nat, k: nat)
    requires i <= j <= k <= |t| && NoBlank(t[i..j]) && AllBlank(t[j..k]) && (k < |t| ==> j < k && t[k] != ' ')
    ensures PastBlanks(t, PastWord(t, i)) == k
  {
    assert forall m :: i <= m < j ==> t[m] == t[i..j][m - i];
    assert forall m :: j <= m < k ==> t[m] == t[j..k][m - j];
    PassWord(t, i, j);
    PassBlanks(t, j, k);
  }

  lemma BlanksThenWordEnd(t: string, i: nat, j: nat, k: nat)
    requires i <= j <= k <= |t| && AllBlank(t[i..j]) && NoBlank(t[j..k]) && (k < |t| ==> j < k && t[k] == ' ')
    ensures PastWord(t, PastBlanks(t, i)) == k
  {
    assert forall m :: i <= m < j ==> t[m] == t[i..j][m - i];
    assert forall m :: j <= m < k ==> t[m] == t[j..k][m - j];
    PassBlanks(t, i, j);
    PassWord(t, j, k);
  }

  lemma WordThenBlanksBegin(t: string, i: nat, j: nat, k: nat)
    requires i <= j <= k <= |t| && NoBlank(t[i..j]) && AllBlank(t[j..k]) && (i > 0 ==> i < j && t[i - 1] == ' ')
    ensures BeforeWord(t, BeforeBlanks(t, k)) == i
  {
    assert forall m :: i <= m < j ==> t[m] == t[i..j][m - i];
    assert forall m :: j <= m < k ==> t[m] == t[j..k][m - j];
    BackOver(t, j, k);
    BackOver(t, i, j);
  }

  /** Where four strings in a row are. */
  lemma InFour(t: string, a: string, b: string, c: string, d: string)
    requires t == a + b + c + d
    ensures var i, j := |a| + |b|, |a| + |b| + |c|;
            && t[..|a|] == a && t[|a|..i] == b && t[i..j] == c && t[j..] == d && |t| == j + |d|
            && (a != "" ==> t[|a| - 1] == a[|a| - 1]) && (d != "" ==> t[j] == d[0])
  {
  }

  lemma Regrouped(a: string, b: string, c: string, d: string)
    ensures a + (b + c + d) == a + b + c + d && (a + b + c) + d == a + b + c + d
  {
  }

  /** A word to the right is the word at the cursor and then the blanks behind it. */
  lemma WordRightGoes(e: Editor, a: string, w: string, b: string, rest: string)
    requires Sound(e) && At(e, a, w + b + rest) && WordThenBlanks(w, b, rest)
    ensures Pressed(e, WordRight) == e.(cp := |a| + |w| + |b|)
  {
    hide Sound, AllBlank, NoBlank, PastWord, PastBlanks, Pressed;
    var t, i, j := e.text, |a| + |w|, |a| + |w| + |b|;
    assert t == a + w + b + rest by { Regrouped(a, w, b, rest); }
    InFour(t, a, w, b, rest);
    WordThenBlanksEnd(t, |a|, i, j);
    WordRightIs(e);
  }

  lemma WordRightIs(e: Editor)
    requires Sound(e)
    ensures Pressed(e, WordRight) == e.(cp := PastBlanks(e.text, PastWord(e.text, e.cp)))
    ensures Pressed(e, KillWordRight) == Removed(e, e.cp, PastWord(e.text, PastBlanks(e.text, e.cp)))
  {
    hide AllPrinting, PastWord, PastBlanks, Removed;
  }

  /** Killing to the right takes the blanks at the cursor and then the word behind them. */
  lemma KillWordRightTakes(e: Editor, a: string, b: string, w: string, rest: string)
    requires Sound(e) && At(e, a, b + w + rest) && BlanksThenWord(b, w, rest)
    ensures Pressed(e, KillWordRight) == e.(text := a + rest)
  {
    hide Sound, AllBlank, NoBlank, PastWord, PastBlanks, Pressed;
    Regrouped(a, b, w, rest);
    InFour(e.text, a, b, w, rest);
    BlanksThenWordEnd(e.text, |a|, |a| + |b|, |a| + |b| + |w|);
    WordRightIs(e);
  }

  /** To the left it is the blanks in front of the cursor and then the word in front of them; killing takes the same. */
  lemma WordLeftGoes(e: Editor, a: string, w: string, b: string, rest: string)
    requires Sound(e) && At(e, a + w + b, rest) && WordBefore(a, w, b)
    ensures Pressed(e, WordLeft) == e.(cp := |a|)
    ensures Pressed(e, KillWordLeft) == e.(text := a + rest, cp := |a|)
  {
    hide Sound, AllBlank, NoBlank, BeforeWord, BeforeBlanks;
    var t, i, j := e.text, |a| + |w|, |a| + |w| + |b|;
    assert t == a + w + b + rest by { Regrouped(a, w, b, rest); }
    InFour(t, a, w, b, rest);
    WordThenBlanksBegin(t, |a|, i, j);
  }

  lemma CursorBehind(e: Editor, front: string, rest: string)
    requires At(e, front, rest)
    ensures e.cp == |front| <= |e.text| && e.text[..e.cp] == front && e.text[e.cp..] == rest
  {
  }

  /** What the keys about one character leave of a line that has x in front of the cursor and y under it. */
  lemma OneCharacterKeys(e: Editor, a: string, x: char, y: char, rest: string)
    requires Sound(e) && At(e, a + [x], [y] + rest)
    ensures Pressed(e, Left) == e.(cp := |a|) && Pressed(e, Right) == e.(cp := |a| + 2)
    ensures Pressed(e, Delete) == e.(text := a + [x] + rest)
    ensures Pressed(e, DeleteBack) == e.(text := a + [y] + rest, cp := |a|)
    ensures Pressed(e, Transpose) == e.(text := a + [y] + [x] + rest, cp := |a| + 2)
  {
    hide Sound;
    CursorBehind(e, a + [x], [y] + rest);
    assert e.text[..|a|] == a && e.text[|a| + 2..] == rest;
    assert Transposed(e).text == a + [y] + [x] + rest;
  }

  /** At the end of the line, behind x. */
  lemma OneCharacterAtEnd(e: Editor, a: string, x: char)
    requires Sound(e) && At(e, a + [x], "")
    ensures Pressed(e, Left) == e.(cp := |a|) && Pressed(e, DeleteBack) == e.(text := a, cp := |a|)
    ensures Pressed(e, Right) == Pressed(e, Delete) == e
    ensures a == "" ==> Pressed(e, Transpose) == e
    ensures a != "" ==> Pressed(e, Transpose) == e.(text := a[..|a| - 1] + [x] + [a[|a| - 1]])
  {
    CursorBehind(e, a + [x], "");
    if a != "" { assert Transposed(e).text == a[..|a| - 1] + [x] + [a[|a| - 1]]; }
  }

  /** At the start of the line, in front of y. */
  lemma OneCharacterAtStart(e: Editor, y: char, rest: string)
    requires Sound(e) && At(e, "", [y] + rest)
    ensures Pressed(e, Left) == Pressed(e, DeleteBack) == Pressed(e, Transpose) == e
    ensures Pressed(e, Right) == e.(cp := 1) && Pressed(e, Delete) == e.(text := rest)
  {
    CursorBehind(e, "", [y] + rest);
  }

  lemma NoCharacterKeys(e: Editor)
    requires Sound(e) && At(e, "", "")
    ensures Pressed(e, Left) == Pressed(e, Right) == Pressed(e, Delete) == Pressed(e, DeleteBack) == e
    ensures Pressed(e, Transpose) == e
  {
  }

  /** A printing character is put in at the cursor, and others do nothing; what the keys about all of the line leave of
      it. */
  lemma WholeLineKeys(e: Editor, a: string, rest: string, c: char)
    requires Sound(e) && At(e, a, rest)
    ensures Pressed(e, Char(c)) == if ' ' <= c <= '~' then e.(text := a + [c] + rest, cp := |a| + 1) else e
    ensures Pressed(e, Home) == e.(cp := 0) && Pressed(e, End) == e.(cp := |a| + |rest|)
    ensures Pressed(e, KillRest) == e.(text := a) && Pressed(e, KillAll) == e.(text := "", cp := 0)
    ensures Pressed(e, Stop) == e.(text := "", cp := 0, hp := e.hindex)
  {
    hide Sound, At;
    CursorBehind(e, a, rest);
    assert e.text[..|a|] + e.text[|e.text|..] == a;
  }

  /** Killing the word to the left and moving over it agree on where it begins; what is killed is blanks after a
      word. */
  lemma KillWordIsMove(e: Editor)
    requires Sound(e)
    ensures var f := Pressed(e, KillWordLeft);
            && f.cp == Pressed(e, WordLeft).cp && f.text == e.text[..f.cp] + e.text[e.cp..]
            && (f.cp > 0 ==> e.text[f.cp - 1] == ' ')
            && (f.cp == e.cp ==> e.cp == 0)
  {
  }

  /** Exchanging twice over the same two characters, from the end of the line, changes nothing. */
  lemma TransposeTwice(e: Editor)
    requires Sound(e) && e.cp == |e.text|
    ensures Sound(Transposed(e)) && Transposed(Transposed(e)) == e
  {
    StillSound(e, Transpose);
    assert Transposed(Transposed(e)).text == e.text;
  }

  /** What has gone into the history is what the previous-line key brings back first. */
  lemma EnterAndRecall(e: Editor, line: string)
    requires Sound(e) && e.text != ""
    ensures var f := Entered(e, line); f.hist[Before(f.hp)] == Some(line) && Recalled(f, Before(f.hp)).text == line
    ensures AllPrinting(line) ==> Sound(Entered(e, line)) && Pressed(Entered(e, line), Previous).text == line
  {
    assert Before(Behind(e.hindex)) == e.hindex;
  }

  /** Back one line in the history and forward again is where one was, if there was a line. */
  lemma PreviousAndNext(e: Editor)
    requires Sound(e) && e.hist[e.hp].Some? && e.hist[Before(e.hp)].Some? && Before(e.hp) != e.hindex
    ensures Sound(Pressed(e, Previous))
    ensures var f := Pressed(Pressed(e, Previous), Next); f.hp == e.hp && Some(f.text) == e.hist[e.hp]
  {
    StillSound(e, Previous);
    assert Behind(Before(e.hp)) == e.hp;
  }

  // ---------- The last twenty lines ----------

  /** The place k lines back in the ring. */
  function Back(i: nat, k: nat): (j: nat)
    requires i < MAXHIST && k <= MAXHIST
    ensures j < MAXHIST
  {
    if k <= i then i - k else i + MAXHIST - k
  }

  /** The history holds the last twenty of these lines, and nothing else. */
  predicate Holds(e: Editor, lines: seq<string>)
    requires Sound(e)
  {
    && e.hp == e.hindex
    && forall k :: 1 <= k <= MAXHIST ==>
         e.hist[Back(e.hindex, k)] == if k <= |lines| then Some(lines[|lines| - k]) else None
  }

  /** A line entered is one line more, but for one that repeats the one before. */
  lemma EnterHolds(e: Editor, lines: seq<string>)
    requires Sound(e) && Holds(e, lines)
    ensures Sound(Pressed(e, Enter))
    ensures Holds(Pressed(e, Enter),
                  if e.text == "" || (lines != [] && lines[|lines| - 1] == e.text) then lines else lines + [e.text])
  {
    StillSound(e, Enter);
    assert Before(e.hindex) == Back(e.hindex, 1);
    if e.text != "" && (lines == [] || lines[|lines| - 1] != e.text) {
      var f, more := Pressed(e, Enter), lines + [e.text];
      forall k | 1 <= k <= MAXHIST
        ensures f.hist[Back(f.hindex, k)] == if k <= |more| then Some(more[|more| - k]) else None
      {
        assert k > 1 ==> Back(f.hindex, k) == Back(e.hindex, k - 1);
      }
    }
  }

  /** The previous-line key, pressed k times, brings back the k-th line from the end. */
  lemma {:induction false} RecallHeld(e: Editor, lines: seq<string>, k: nat)
    requires Sound(e) && Holds(e, lines) && 1 <= k <= |lines| && k <= MAXHIST
    ensures var f := PressedAll(e, seq(k, _ => Previous)); Sound(f) && f.text == lines[|lines| - k]
    ensures PressedAll(e, seq(k, _ => Previous)).hp == Back(e.hindex, k)
    ensures var f := PressedAll(e, seq(k, _ => Previous)); f.hist == e.hist && f.hindex == e.hindex
  {
    var keys := seq(k - 1, _ => Previous);
    assert seq(k, _ => Previous) == keys + [Previous];
    if k > 1 {
      RecallHeld(e, lines, k - 1);
    } else {
      assert PressedAll(e, keys) == e;
    }
    PressedMore(e, keys, Previous);
    var f := PressedAll(e, keys);
    assert Before(f.hp) == Back(e.hindex, k);
    StillSound(f, Previous);
  }
}
