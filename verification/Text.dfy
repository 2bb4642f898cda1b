/** The string functions that renderers and engine-side parsers are written with, character by character. */
module Text {
  import opened Basics

  /** unicode.IsSpace. */
  predicate IsSpace(c: char) {
    || '\t' <= c <= '\r' || c == ' ' || c == '\U{0085}' || c == '\U{00A0}' || c == '\U{1680}'
    || '\U{2000}' <= c <= '\U{200A}' || c == '\U{2028}' || c == '\U{2029}' || c == '\U{202F}'
    || c == '\U{205F}' || c == '\U{3000}'
  }

  function TrimLeft(s: string): string {
    if s != "" && IsSpace(s[0]) then TrimLeft(s[1..]) else s
  }

  function TrimRight(s: string): string {
    if s != "" && IsSpace(s[|s| - 1]) then TrimRight(s[..|s| - 1]) else s
  }

  /** strings.TrimSpace. */
  function Trim(s: string): string {
    TrimLeft(TrimRight(s))
  }

  /** strings.Split on one character. */
  function Split(s: string, c: char): (pieces: seq<string>)
    ensures |pieces| >= 1
  {
    if s == "" then [""]
    else
      var rest := Split(s[1..], c);
      if s[0] == c then [""] + rest else [[s[0]] + rest[0]] + rest[1..]
  }

  /** strings.Join. */
  function Join(ss: seq<string>, sep: string): string {
    if ss == [] then ""
    else if |ss| == 1 then ss[0]
    else ss[0] + sep + Join(ss[1..], sep)
  }

  /** What a builder holds after writing each line and a newline. */
  function Unlines(ls: seq<string>): string {
    if ls == [] then "" else ls[0] + "\n" + Unlines(ls[1..])
  }

  /** The part before the first c, the part after it, and whether there was one (strings.Cut). */
  function Cut(s: string, c: char): (string, string, bool) {
    if s == "" then ("", "", false)
    else if s[0] == c then ("", s[1..], true)
    else
      var (before, after, found) := Cut(s[1..], c);
      ([s[0]] + before, after, found)
  }

  predicate HasPrefix(s: string, prefix: string) {
    |prefix| <= |s| && s[..|prefix|] == prefix
  }

  lemma PrefixChar(s: string, prefix: string, k: nat)
    requires k < |prefix|
    ensures HasPrefix(s, prefix) ==> k < |s| && s[k] == prefix[k]
  {
    assert HasPrefix(s, prefix) ==> s[..|prefix|][k] == s[k];
  }

  function CutPrefix(s: string, prefix: string): Option<string> {
    if HasPrefix(s, prefix) then Some(s[|prefix|..]) else None
  }

  function NonBlank(ss: seq<string>): seq<string> {
    if ss == [] then []
    else if Trim(ss[0]) == "" then NonBlank(ss[1..])
    else [Trim(ss[0])] + NonBlank(ss[1..])
  }

  /** The engines' shared splitter: trimmed, non-blank lines. */
  function Lines(s: string): seq<string> {
    NonBlank(Split(s, '\n'))
  }

  /** The word at the front of s. */
  function Word(s: string): string {
    if s == "" || IsSpace(s[0]) then "" else [s[0]] + Word(s[1..])
  }

  lemma {:induction false} WordPrefix(s: string)
    ensures |Word(s)| <= |s| && s[..|Word(s)|] == Word(s)
    ensures forall i :: 0 <= i < |Word(s)| ==> !IsSpace(Word(s)[i])
  {
    if s != "" && !IsSpace(s[0]) {
      WordPrefix(s[1..]);
    }
  }

  /** strings.Fields: the maximal runs of non-space characters. */
  function Fields(s: string): seq<string>
    decreases |s|
  {
    if s == "" then []
    else if IsSpace(s[0]) then Fields(s[1..])
    else
      WordPrefix(s);
      [Word(s)] + Fields(s[|Word(s)|..])
  }

  function Digit(n: nat): char
    requires n < 10
  {
    ['0', '1', '2', '3', '4', '5', '6', '7', '8', '9'][n]
  }

  /** %d. */
  function Dec(n: nat): string {
    if n < 10 then [Digit(n)] else Dec(n / 10) + [Digit(n % 10)]
  }

  // ---- character classes of whole strings ----

  predicate NoSpace(s: string) {
    forall i :: 0 <= i < |s| ==> !IsSpace(s[i])
  }

  /** No white space at either end. */
  predicate Trimmed(s: string) {
    s == "" || (!IsSpace(s[0]) && !IsSpace(s[|s| - 1]))
  }

  /** Survives being printed on a line of its own and trimmed. */
  predicate Tidy(s: string) {
    Trimmed(s) && '\n' !in s
  }

  /** A word: what Fields returns. */
  predicate IsWord(s: string) {
    s != "" && NoSpace(s)
  }

  // ---- Dec ----

  lemma {:induction false} DecDigits(n: nat)
    ensures Dec(n) != "" && NoSpace(Dec(n)) && forall c :: c in Dec(n) ==> '0' <= c <= '9'
  {
    if n >= 10 {
      DecDigits(n / 10);
    }
  }

  lemma {:induction false} DecInjective(m: nat, n: nat)
    requires Dec(m) == Dec(n)
    ensures m == n
  {
    DecParts(m);
    DecParts(n);
    var a, b := Dec(m), Dec(n);
    var x, y := m / 10, n / 10;
    assert m == 10 * x + m % 10 && n == 10 * y + n % 10;
    hide Dec;
    if m >= 10 && n >= 10 {
      assert a[..|a| - 1] == b[..|b| - 1];
      DecInjective(x, y);
    }
  }

  /** The last digit, and what comes before it. */
  lemma DecParts(n: nat)
    ensures Dec(n) != "" && Dec(n)[|Dec(n)| - 1] == Digit(n % 10)
    ensures |Dec(n)| == 1 <==> n < 10
    ensures n >= 10 ==> Dec(n)[..|Dec(n)| - 1] == Dec(n / 10)
    ensures forall d: nat :: d < 10 && Digit(d) == Digit(n % 10) ==> d == n % 10
  {
    if n >= 10 {
      DecDigits(n / 10);
    }
  }

  /** The number that a string of digits stands for, most significant first, by character code. */
  function NumberOf(s: string): int {
    if s == "" then 0 else 10 * NumberOf(s[..|s| - 1]) + (s[|s| - 1] as int - '0' as int)
  }

  /** The usual way to write a number: digits only, at least one, and no zero in front of others. */
  predicate IsNumeral(s: string) {
    && s != "" && (forall i :: 0 <= i < |s| ==> '0' <= s[i] <= '9')
    && (|s| > 1 ==> s[0] != '0')
  }

  lemma DigitIs(d: nat)
    requires d < 10
    ensures Digit(d) as int == '0' as int + d
  {
  }

  lemma NumberSnoc(front: string, d: nat)
    requires d < 10
    ensures NumberOf(front + [Digit(d)]) == 10 * NumberOf(front) + d
    ensures IsNumeral(front) && front[0] != '0' ==> IsNumeral(front + [Digit(d)])
    ensures IsNumeral([Digit(d)])
  {
    DigitIs(d);
    var s := front + [Digit(d)];
    assert s[..|s| - 1] == front;
  }

  /** The printed number is a numeral and reads as the number. */
  lemma {:induction false} DecReads(n: nat)
    ensures IsNumeral(Dec(n)) && NumberOf(Dec(n)) == n
    ensures Dec(n)[0] == '0' ==> n == 0
  {
    hide NumberOf, IsNumeral, Digit;
    if n < 10 {
      NumberSnoc("", n);
      DigitIs(n);
      assert "" + [Digit(n)] == Dec(n) && NumberOf("") == 0 by {
        NumberOfNothing();
      }
    } else {
      DecReads(n / 10);
      var front := Dec(n / 10);
      NumeralNotEmpty(front);
      NumberSnoc(front, n % 10);
    }
  }

  lemma NumberOfNothing()
    ensures NumberOf("") == 0
  {
  }

  lemma NumeralNotEmpty(s: string)
    requires IsNumeral(s)
    ensures s != ""
  {
  }

  lemma {:induction false} NumeralPositive(s: string)
    requires IsNumeral(s)
    ensures NumberOf(s) >= 0 && (s != "0" ==> NumberOf(s) > 0) && (|s| > 1 ==> NumberOf(s) >= 10)
  {
    if |s| > 1 {
      var front := s[..|s| - 1];
      NumeralPositive(front);
      assert front[0] == s[0];
    } else {
      assert s[..0] == "" && s == [s[0]];
    }
  }

  /** And there is one numeral for each number. */
  lemma {:induction false} NumeralIsDec(s: string)
    requires IsNumeral(s)
    ensures NumberOf(s) >= 0 && Dec(NumberOf(s)) == s
  {
    NumeralPositive(s);
    var n := NumberOf(s);
    var front, last := s[..|s| - 1], s[|s| - 1];
    assert s == front + [last];
    if |s| > 1 {
      NumeralIsDec(front);
      assert n / 10 == NumberOf(front) && n % 10 == last as int - '0' as int;
      DigitIs(n % 10);
    } else {
      assert front == "";
      DigitIs(n);
    }
  }

  // ---- Trim ----

  lemma {:induction false} TrimLeftFacts(s: string)
    ensures |TrimLeft(s)| <= |s| && TrimLeft(s) == s[|s| - |TrimLeft(s)|..]
    ensures TrimLeft(s) != "" ==> !IsSpace(TrimLeft(s)[0])
  {
    if s != "" && IsSpace(s[0]) {
      TrimLeftFacts(s[1..]);
    }
  }

  lemma {:induction false} TrimRightFacts(s: string)
    ensures |TrimRight(s)| <= |s| && TrimRight(s) == s[..|TrimRight(s)|]
    ensures TrimRight(s) != "" ==> !IsSpace(TrimRight(s)[|TrimRight(s)| - 1])
  {
    if s != "" && IsSpace(s[|s| - 1]) {
      TrimRightFacts(s[..|s| - 1]);
    }
  }

  /** Trimming leaves a trimmed stretch of the string, so it adds no character. */
  lemma TrimFacts(s: string)
    ensures Trimmed(Trim(s)) && forall c :: c in Trim(s) ==> c in s
  {
    TrimRightFacts(s);
    TrimLeftFacts(TrimRight(s));
    var t := TrimRight(s);
    assert forall c :: c in t ==> c in s;
  }

  lemma TrimTrimmed(s: string)
    requires Trimmed(s)
    ensures Trim(s) == s
  {
  }

  /** Leading and trailing white space goes; the trimmed middle stays. */
  lemma {:induction false} TrimPadded(pad: string, s: string)
    requires forall i :: 0 <= i < |pad| ==> IsSpace(pad[i])
    requires Trimmed(s) && s != ""
    ensures Trim(pad + s) == s
  {
    var t := pad + s;
    assert t[|t| - 1] == s[|s| - 1];
    if pad == "" {
      assert t == s;
    } else {
      assert t[1..] == pad[1..] + s;
      TrimPadded(pad[1..], s);
      assert TrimRight(t[1..]) == t[1..];
    }
  }

  /** Trimming touches only what follows a front that starts and ends with a character of its own. */
  lemma {:induction false} TrimKeeps(front: string, rest: string)
    requires front != "" && !IsSpace(front[0]) && !IsSpace(front[|front| - 1])
    ensures Trim(front + rest) == front + TrimRight(rest)
    decreases |rest|
  {
    var t := front + rest;
    assert t[0] == front[0];
    if rest == "" {
      assert t == front;
    } else if IsSpace(rest[|rest| - 1]) {
      assert t[..|t| - 1] == front + rest[..|rest| - 1];
      TrimKeeps(front, rest[..|rest| - 1]);
    } else {
      assert t[|t| - 1] == rest[|rest| - 1];
    }
  }

  predicate Blank(s: string) {
    forall c :: c in s ==> IsSpace(c)
  }

  lemma {:induction false} TrimLeftBlank(s: string)
    ensures TrimLeft(s) == "" <==> Blank(s)
  {
    if s != "" {
      TrimLeftBlank(s[1..]);
      assert s == [s[0]] + s[1..];
    }
  }

  lemma {:induction false} TrimRightBlank(s: string)
    ensures TrimRight(s) == "" <==> Blank(s)
  {
    if s != "" {
      TrimRightBlank(s[..|s| - 1]);
      assert s == s[..|s| - 1] + [s[|s| - 1]];
    }
  }

  lemma TrimBlank(s: string)
    ensures Trim(s) == "" <==> Blank(s)
  {
    TrimRightBlank(s);
    TrimRightFacts(s);
    TrimLeftBlank(TrimRight(s));
    var t := TrimRight(s);
    if t != "" {
      assert t[|t| - 1] in t;
    }
  }

  // ---- Split, Join and Unlines ----

  lemma {:induction false} SplitNone(s: string, c: char)
    requires c !in s
    ensures Split(s, c) == [s]
  {
    if s != "" {
      SplitNone(s[1..], c);
      assert [s[0]] + s[1..] == s;
    }
  }

  lemma {:induction false} SplitAt(a: string, b: string, c: char)
    requires c !in a
    ensures Split(a + [c] + b, c) == [a] + Split(b, c)
  {
    var t := a + [c] + b;
    if a == "" {
      assert t[1..] == b;
    } else {
      assert t[1..] == a[1..] + [c] + b;
      SplitAt(a[1..], b, c);
      assert [a[0]] + a[1..] == a;
    }
  }

  lemma {:induction false} SplitUnlines(ls: seq<string>)
    requires forall l :: l in ls ==> '\n' !in l
    ensures Split(Unlines(ls), '\n') == ls + [""]
  {
    if ls != [] {
      SplitUnlines(ls[1..]);
      assert ls[0] in ls && ls == [ls[0]] + ls[1..];
      SplitAt(ls[0], Unlines(ls[1..]), '\n');
      assert ls[0] + "\n" + Unlines(ls[1..]) == ls[0] + ['\n'] + Unlines(ls[1..]);
    }
  }

  lemma {:induction false} SplitPieces(s: string, c: char)
    ensures forall p :: p in Split(s, c) ==> c !in p && forall x :: x in p ==> x in s
  {
    if s != "" {
      SplitPieces(s[1..], c);
      var rest := Split(s[1..], c);
      assert rest[0] in rest;
    }
  }

  lemma {:induction false} SplitJoin(ss: seq<string>, c: char)
    requires ss != [] && forall p :: p in ss ==> c !in p
    ensures Split(Join(ss, [c]), c) == ss
  {
    assert ss[0] in ss;
    if |ss| == 1 {
      SplitNone(ss[0], c);
    } else {
      assert forall p :: p in ss[1..] ==> p in ss;
      SplitJoin(ss[1..], c);
      SplitAt(ss[0], Join(ss[1..], [c]), c);
    }
  }

  lemma {:induction false} UnlinesConcat(a: seq<string>, b: seq<string>)
    ensures Unlines(a + b) == Unlines(a) + Unlines(b)
  {
    if a == [] {
      assert a + b == b;
    } else {
      assert (a + b)[1..] == a[1..] + b;
      UnlinesConcat(a[1..], b);
    }
  }

  lemma UnlinesSnoc(ls: seq<string>, l: string)
    ensures Unlines(ls + [l]) == Unlines(ls) + l + "\n"
  {
    UnlinesConcat(ls, [l]);
    UnlinesOne(l);
  }

  lemma UnlinesOne(l: string)
    ensures Unlines([l]) == l + "\n"
  {
    assert [l][1..] == [];
  }

  // ---- Lines ----

  lemma {:induction false} NonBlankConcat(a: seq<string>, b: seq<string>)
    ensures NonBlank(a + b) == NonBlank(a) + NonBlank(b)
  {
    if a == [] {
      assert a + b == b;
    } else {
      assert (a + b)[1..] == a[1..] + b;
      NonBlankConcat(a[1..], b);
    }
  }

  /** The lines a parser sees are tidy and not blank. */
  lemma {:induction false} NonBlankTidy(ss: seq<string>)
    requires forall s :: s in ss ==> '\n' !in s
    ensures forall l :: l in NonBlank(ss) ==> Tidy(l) && l != ""
  {
    if ss != [] {
      assert ss[0] in ss && forall s :: s in ss[1..] ==> s in ss;
      NonBlankTidy(ss[1..]);
      TrimFacts(ss[0]);
    }
  }

  lemma LinesTidy(s: string)
    ensures forall l :: l in Lines(s) ==> Tidy(l) && l != ""
  {
    SplitPieces(s, '\n');
    NonBlankTidy(Split(s, '\n'));
  }

  /** Reading back what was written line by line: each line trimmed, blank ones gone. */
  lemma LinesOfUnlines(ls: seq<string>)
    requires forall l :: l in ls ==> '\n' !in l
    ensures Lines(Unlines(ls)) == NonBlank(ls)
  {
    SplitUnlines(ls);
    NonBlankConcat(ls, [""]);
    assert NonBlank([""]) == [];
  }

  lemma {:induction false} SplitConcat(a: string, b: string, c: char)
    ensures Split(a + [c] + b, c) == Split(a, c) + Split(b, c)
  {
    var t := a + [c] + b;
    if a == "" {
      assert t[1..] == b;
    } else {
      assert t[1..] == a[1..] + [c] + b;
      SplitConcat(a[1..], b, c);
    }
  }

  /** Every line is finished. */
  predicate Terminated(s: string) {
    s == "" || s[|s| - 1] == '\n'
  }

  /** The lines of two finished texts are those of the first, then those of the second. */
  lemma LinesConcat(a: string, b: string)
    requires Terminated(a)
    ensures Lines(a + b) == Lines(a) + Lines(b)
  {
    assert NonBlank([""]) == [] && Split("", '\n') == [""];
    hide Split, NonBlank;
    if a == "" {
      assert a + b == b;
    } else {
      var body := a[..|a| - 1];
      assert a == body + ['\n'] + "" && a + b == body + ['\n'] + b;
      SplitConcat(body, "", '\n');
      SplitConcat(body, b, '\n');
      NonBlankConcat(Split(body, '\n'), [""]);
      NonBlankConcat(Split(body, '\n'), Split(b, '\n'));
    }
  }

  /** Tidy, non-blank lines come back unchanged. */
  lemma {:induction false} NonBlankOfTidy(ls: seq<string>)
    requires forall l :: l in ls ==> Tidy(l) && l != ""
    ensures NonBlank(ls) == ls
  {
    if ls != [] {
      assert ls[0] in ls && forall l :: l in ls[1..] ==> l in ls;
      TrimTrimmed(ls[0]);
      NonBlankOfTidy(ls[1..]);
    }
  }

  lemma LinesOfTidy(ls: seq<string>)
    requires forall l :: l in ls ==> Tidy(l) && l != ""
    ensures Lines(Unlines(ls)) == ls
  {
    LinesOfUnlines(ls);
    NonBlankOfTidy(ls);
  }

  lemma {:induction false} UnlinesTerminated(ls: seq<string>)
    ensures Terminated(Unlines(ls))
  {
    if ls != [] {
      UnlinesTerminated(ls[1..]);
      var t, rest := Unlines(ls), Unlines(ls[1..]);
      assert t[|t| - 1] == if rest == "" then '\n' else rest[|rest| - 1];
    }
  }

  lemma {:induction false} BlankPieces(ss: seq<string>)
    requires forall s :: s in ss ==> Blank(s)
    ensures NonBlank(ss) == []
  {
    if ss != [] {
      assert ss[0] in ss && forall s :: s in ss[1..] ==> s in ss;
      TrimBlank(ss[0]);
      BlankPieces(ss[1..]);
    }
  }

  /** A blank text has no lines. */
  lemma BlankLines(text: string)
    requires Trim(text) == ""
    ensures Lines(text) == []
  {
    TrimBlank(text);
    SplitPieces(text, '\n');
    BlankPieces(Split(text, '\n'));
  }

  // ---- lines that may themselves hold newlines ----

  /** The pieces of every line, in order. */
  function Pieces(ls: seq<string>): seq<string> {
    if ls == [] then [] else Split(ls[0], '\n') + Pieces(ls[1..])
  }

  lemma {:induction false} SplitUnlinesAny(ls: seq<string>)
    ensures Split(Unlines(ls), '\n') == Pieces(ls) + [""]
  {
    if ls != [] {
      SplitUnlinesAny(ls[1..]);
      SplitConcat(ls[0], Unlines(ls[1..]), '\n');
      assert ls[0] + "\n" + Unlines(ls[1..]) == ls[0] + ['\n'] + Unlines(ls[1..]);
      MoveBrackets(Split(ls[0], '\n'), Pieces(ls[1..]), [""], Split(ls[0], '\n') + (Pieces(ls[1..]) + [""]));
    }
  }

  lemma {:induction false} PiecesConcat(a: seq<string>, b: seq<string>)
    ensures Pieces(a + b) == Pieces(a) + Pieces(b)
  {
    if a == [] {
      assert a + b == b;
    } else {
      assert (a + b)[1..] == a[1..] + b;
      PiecesConcat(a[1..], b);
      MoveBrackets(Split(a[0], '\n'), Pieces(a[1..]), Pieces(b), Split(a[0], '\n') + (Pieces(a[1..]) + Pieces(b)));
    }
  }

  lemma {:induction false} PiecesOfOneLiners(ls: seq<string>)
    requires forall l :: l in ls ==> '\n' !in l
    ensures Pieces(ls) == ls
  {
    if ls != [] {
      assert ls[0] in ls && forall l :: l in ls[1..] ==> l in ls;
      SplitNone(ls[0], '\n');
      PiecesOfOneLiners(ls[1..]);
    }
  }

  lemma LinesOfPieces(ls: seq<string>)
    ensures Lines(Unlines(ls)) == NonBlank(Pieces(ls))
  {
    SplitUnlinesAny(ls);
    NonBlankConcat(Pieces(ls), [""]);
    assert NonBlank([""]) == [];
  }

  /** What follows the first newline, as pieces; nothing without one. */
  function Continuation(s: string): seq<string> {
    Split(s, '\n')[1..]
  }

  /** A front without a newline only makes the first piece longer. */
  lemma {:induction false} SplitFront(front: string, s: string)
    requires '\n' !in front
    ensures Split(front + s, '\n') == [front + Split(s, '\n')[0]] + Continuation(s)
  {
    if front == "" {
      assert front + s == s && front + Split(s, '\n')[0] == Split(s, '\n')[0];
      assert Split(s, '\n') == [Split(s, '\n')[0]] + Split(s, '\n')[1..];
    } else {
      var t := front + s;
      assert t[1..] == front[1..] + s;
      SplitFront(front[1..], s);
      assert [front[0]] + (front[1..] + Split(s, '\n')[0]) == front + Split(s, '\n')[0];
    }
  }

  lemma {:induction false} ContinuationIsCut(s: string)
    ensures Continuation(s) == if '\n' in s then Split(Cut(s, '\n').1, '\n') else []
    ensures Split(s, '\n')[0] == Cut(s, '\n').0
  {
    CutFacts(s, '\n');
    if '\n' in s {
      var c := Cut(s, '\n');
      SplitAt(c.0, c.1, '\n');
    } else {
      SplitNone(s, '\n');
    }
  }

  lemma {:induction false} NonBlankNone(ss: seq<string>)
    ensures NonBlank(ss) == [] <==> forall s :: s in ss ==> Blank(s)
  {
    if ss != [] {
      assert forall s :: s in ss <==> s == ss[0] || s in ss[1..];
      TrimBlank(ss[0]);
      NonBlankNone(ss[1..]);
    }
  }

  /** A text has no lines exactly if it is white space throughout. */
  lemma {:induction false} BlankPiecesIff(s: string)
    ensures (forall p :: p in Split(s, '\n') ==> Blank(p)) <==> Blank(s)
  {
    if s != "" {
      BlankPiecesIff(s[1..]);
      var rest, whole := Split(s[1..], '\n'), Split(s, '\n');
      assert s == [s[0]] + s[1..];
      if s[0] == '\n' {
        assert forall p :: p in whole <==> p == "" || p in rest;
      } else {
        var first := [s[0]] + rest[0];
        assert forall c :: c in first <==> c == s[0] || c in rest[0];
        assert Blank(first) <==> IsSpace(s[0]) && Blank(rest[0]);
        assert forall p :: p in whole <==> p == first || p in rest[1..];
        assert forall p :: p in rest <==> p == rest[0] || p in rest[1..];
      }
    }
  }

  // ---- bufio.Scanner ----

  function DropCR(s: string): string {
    if s != "" && s[|s| - 1] == '\r' then s[..|s| - 1] else s
  }

  function DropCRs(ls: seq<string>): seq<string> {
    seq(|ls|, i requires 0 <= i < |ls| => DropCR(ls[i]))
  }

  function WithoutLastBlank(pieces: seq<string>): seq<string>
    requires pieces != []
  {
    if pieces[|pieces| - 1] == "" then pieces[..|pieces| - 1] else pieces
  }

  /** The lines a scanner yields: no line after a final newline, and no carriage return at the end of one. */
  function ScanLines(s: string): seq<string> {
    DropCRs(WithoutLastBlank(Split(s, '\n')))
  }

  /** What was written line by line is scanned piece by piece. */
  lemma ScanUnlines(ls: seq<string>)
    ensures ScanLines(Unlines(ls)) == DropCRs(Pieces(ls))
  {
    SplitUnlinesAny(ls);
    assert WithoutLastBlank(Pieces(ls) + [""]) == Pieces(ls);
  }

  lemma ScanFirst(first: string, rest: string)
    requires '\n' !in first
    ensures ScanLines(first + "\n" + rest) == [DropCR(first)] + ScanLines(rest)
  {
    assert first + "\n" + rest == first + ['\n'] + rest;
    SplitAt(first, rest, '\n');
    ScanPieces(first, Split(rest, '\n'));
  }

  lemma ScanPieces(first: string, pieces: seq<string>)
    requires pieces != []
    ensures DropCRs(WithoutLastBlank([first] + pieces)) == [DropCR(first)] + DropCRs(WithoutLastBlank(pieces))
  {
    assert WithoutLastBlank([first] + pieces) == [first] + WithoutLastBlank(pieces);
  }

  // ---- Cut ----

  lemma {:induction false} CutAt(a: string, b: string, c: char)
    requires c !in a
    ensures Cut(a + [c] + b, c) == (a, b, true)
  {
    var t := a + [c] + b;
    if a != "" {
      assert t[1..] == a[1..] + [c] + b;
      CutAt(a[1..], b, c);
      assert [a[0]] + a[1..] == a;
    } else {
      assert t[1..] == b;
    }
  }

  lemma {:induction false} CutNone(a: string, c: char)
    requires c !in a
    ensures Cut(a, c) == (a, "", false)
  {
    if a != "" {
      CutNone(a[1..], c);
      assert [a[0]] + a[1..] == a;
    }
  }

  lemma {:induction false} CutFacts(s: string, c: char)
    ensures forall x :: x in Cut(s, c).1 ==> x in s
    ensures forall x :: x in Cut(s, c).0 ==> x in s
    ensures Cut(s, c).2 ==> s == Cut(s, c).0 + [c] + Cut(s, c).1 && c !in Cut(s, c).0
    ensures !Cut(s, c).2 ==> s == Cut(s, c).0 && c !in s
  {
    if s != "" {
      CutFacts(s[1..], c);
    }
  }

  // ---- Fields ----

  lemma {:induction false} FieldsAreWords(s: string)
    ensures forall w :: w in Fields(s) ==> IsWord(w)
    decreases |s|
  {
    if s == "" {
    } else if IsSpace(s[0]) {
      FieldsAreWords(s[1..]);
    } else {
      WordPrefix(s);
      FieldsAreWords(s[|Word(s)|..]);
    }
  }

  lemma {:induction false} WordThenSpace(w: string, rest: string)
    requires NoSpace(w) && (rest == "" || IsSpace(rest[0]))
    ensures Word(w + rest) == w
  {
    if w == "" {
      assert w + rest == rest;
    } else {
      assert (w + rest)[1..] == w[1..] + rest;
      WordThenSpace(w[1..], rest);
    }
  }

  /** One word followed by a space and the rest. */
  lemma FieldsStep(w: string, rest: string)
    requires IsWord(w)
    ensures Fields(w + " " + rest) == [w] + Fields(rest)
    ensures Fields(w) == [w]
  {
    var t := w + " " + rest;
    assert t == w + (" " + rest);
    WordThenSpace(w, " " + rest);
    assert t[|w|..] == " " + rest;
    assert (" " + rest)[1..] == rest;
    assert w + "" == w;
    WordThenSpace(w, "");
    assert w[|w|..] == "";
  }

  /** Words joined by single spaces come back one by one. */
  lemma {:induction false} FieldsOfJoin(ws: seq<string>)
    requires forall w :: w in ws ==> IsWord(w)
    ensures Fields(Join(ws, " ")) == ws
  {
    if ws != [] {
      assert ws[0] in ws && forall w :: w in ws[1..] ==> w in ws;
      FieldsStep(ws[0], Join(ws[1..], " "));
      FieldsOfJoin(ws[1..]);
      if |ws| == 1 {
        assert ws == [ws[0]];
      }
    }
  }

  lemma HeadJoin(w: string, ws: seq<string>)
    requires ws != []
    ensures Join([w] + ws, " ") == w + " " + Join(ws, " ")
  {
    assert ([w] + ws)[1..] == ws;
  }

  /** The words after the first ones of a joined line, with the space before them. */
  function JoinTail(ws: seq<string>): string {
    if ws == [] then "" else " " + Join(ws, " ")
  }

  lemma JoinThree(a: string, b: string, c: string, ws: seq<string>)
    ensures Join([a, b, c] + ws, " ") == a + " " + b + " " + c + JoinTail(ws)
  {
    assert [a, b, c] + ws == [a] + ([b] + ([c] + ws));
    HeadJoin(a, [b] + ([c] + ws));
    HeadJoin(b, [c] + ws);
    if ws != [] {
      HeadJoin(c, ws);
    } else {
      assert [c] + ws == [c];
    }
  }

  lemma SameWords(a: string, b: string, rest: string)
    ensures a + " " + b + " " + rest == a + " " + (b + " " + rest)
  {
  }

  lemma FieldsOfTwo(a: string, b: string, rest: string)
    requires IsWord(a) && IsWord(b)
    ensures Fields(a + " " + b + " " + rest) == [a, b] + Fields(rest)
  {
    hide Fields, IsWord;
    SameWords(a, b, rest);
    FieldsStep(a, b + " " + rest);
    FieldsStep(b, rest);
    assert [a] + ([b] + Fields(rest)) == [a, b] + Fields(rest);
  }

  /** The first three words of a line, whatever follows the third. */
  lemma FieldsOfThree(a: string, b: string, c: string, rest: string)
    requires IsWord(a) && IsWord(b) && IsWord(c) && (rest == "" || IsSpace(rest[0]))
    ensures |Fields(a + " " + b + " " + c + rest)| >= 3
    ensures Fields(a + " " + b + " " + c + rest)[..3] == [a, b, c]
  {
    FieldsOfTwo(a, b, c + rest);
    assert a + " " + b + " " + c + rest == a + " " + b + " " + (c + rest);
    FirstField(c, rest);
    var last := Fields(c + rest);
    assert ([a, b] + last)[2] == last[0] == c;
  }

  lemma FirstField(c: string, rest: string)
    requires IsWord(c) && (rest == "" || IsSpace(rest[0]))
    ensures Fields(c + rest) != [] && Fields(c + rest)[0] == c
  {
    WordThenSpace(c, rest);
  }

  /** A line of at least three words. */
  lemma FieldsAfterTwo(a: string, b: string, rest: string)
    requires IsWord(a) && IsWord(b) && rest != "" && !IsSpace(rest[|rest| - 1])
    ensures |Fields(a + " " + b + " " + rest)| >= 3
    ensures Fields(a + " " + b + " " + rest)[..2] == [a, b] && IsWord(Fields(a + " " + b + " " + rest)[2])
  {
    FieldsOfTwo(a, b, rest);
    SomeField(rest);
    FieldsAreWords(rest);
    assert Fields(rest)[0] in Fields(rest);
  }

  lemma {:induction false} SomeField(s: string)
    requires s != "" && !IsSpace(s[|s| - 1])
    ensures Fields(s) != []
    decreases |s|
  {
    if IsSpace(s[0]) {
      SomeField(s[1..]);
    }
  }

  lemma {:induction false} JoinNoNewline(ws: seq<string>)
    requires forall w :: w in ws ==> '\n' !in w
    ensures '\n' !in Join(ws, " ")
  {
    if ws != [] {
      assert ws[0] in ws && forall w :: w in ws[1..] ==> w in ws;
      JoinNoNewline(ws[1..]);
    }
  }

  /** Join adds no white space of its own beyond the separator. */
  lemma {:induction false} JoinNoSpace(ws: seq<string>, sep: string)
    requires NoSpace(sep) && forall w :: w in ws ==> NoSpace(w)
    ensures NoSpace(Join(ws, sep))
  {
    if ws != [] {
      assert ws[0] in ws && forall w :: w in ws[1..] ==> w in ws;
      JoinNoSpace(ws[1..], sep);
    }
  }

  /** A line of words joined by spaces is tidy. */
  lemma {:induction false} JoinTidy(ws: seq<string>)
    requires forall w :: w in ws ==> IsWord(w)
    ensures Tidy(Join(ws, " ")) && (ws != [] ==> Join(ws, " ") != "")
  {
    if ws != [] {
      assert ws[0] in ws && forall w :: w in ws[1..] ==> w in ws;
      JoinTidy(ws[1..]);
      assert forall c :: c in ws[0] ==> !IsSpace(c);
    }
  }

  lemma NoSpaceTidy(s: string)
    requires NoSpace(s)
    ensures Tidy(s)
  {
  }

  // ---- the comment at the top of generated files ----

  const BANNER_WORDS := ["#", "Generated", "by", "OpenNGFW", "controld.", "Do", "not", "edit;", "overwritten", "on",
                         "every", "commit."]

  const BANNER := Join(BANNER_WORDS, " ")

  lemma BannerTidy()
    ensures Tidy(BANNER)
  {
    forall w | w in BANNER_WORDS
      ensures IsWord(w)
    {
    }
    JoinTidy(BANNER_WORDS);
  }

  lemma JoinFront(ws: seq<string>)
    requires |ws| >= 2 && |ws[0]| == 1 && ws[1] != ""
    ensures |Join(ws, " ")| > 2 && Join(ws, " ")[0] == ws[0][0] && Join(ws, " ")[2] == ws[1][0]
  {
    var rest := ws[1..];
    assert rest[0] == ws[1];
    assert Join(rest, " ")[0] == rest[0][0];
    assert Join(ws, " ") == ws[0] + " " + Join(rest, " ");
  }

  lemma BannerShape()
    ensures Tidy(BANNER) && HasPrefix(BANNER, "#") && |BANNER| > 2 && BANNER[2] == 'G'
  {
    BannerTidy();
    assert BANNER_WORDS[0] == "#" && BANNER_WORDS[1][0] == 'G';
    JoinFront(BANNER_WORDS);
  }

  // ---- key-value lines ----

  /** A key, a space, and a tidy value: after trimming, cutting at the space gives both back. */
  lemma KeyValue(pad: string, key: string, v: string)
    requires forall i :: 0 <= i < |pad| ==> IsSpace(pad[i])
    requires IsWord(key) && Tidy(v)
    ensures var line := Trim(pad + key + " " + v);
            line != "" && line[0] == key[0] && Cut(line, ' ').0 == key && Trim(Cut(line, ' ').1) == v
  {
    if v == "" {
      var t := pad + key + " " + v;
      assert t[|t| - 1] == ' ' && t[..|t| - 1] == pad + key;
      assert TrimRight(t) == TrimRight(pad + key);
      TrimPadded(pad, key);
      assert Trim(t) == key;
      assert ' ' !in key;
      CutNone(key, ' ');
    } else {
      var body := key + [' '] + v;
      assert pad + key + " " + v == pad + body;
      TrimPadded(pad, body);
      assert ' ' !in key;
      CutAt(key, v, ' ');
      TrimTrimmed(v);
    }
  }
}
