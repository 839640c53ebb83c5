/** The fragment of Ruby regular expressions the program uses: literals, `(\S+)`, `(\d+)`,
    ` *` and `(.*)`, searched unanchored or at line starts (Ruby's `^`).
    Every pattern in the program puts after each `\S+`, `\d+` or ` *` either nothing or a
    character that the repetition cannot consume, so the greedy match below, which never
    backtracks, finds the same match as Ruby's backtracking engine. */
module Regex {
  import opened Text

  datatype Tok =
    | Lit(text: string)  // the literal characters
    | Word               // (\S+)
    | Digits             // (\d+)
    | Blanks             // " *", not captured
    | Line               // (.*)

  function CaptureCount(p: seq<Tok>): nat
  {
    if p == [] then 0 else (if p[0].Lit? || p[0].Blanks? then 0 else 1) + CaptureCount(p[1..])
  }

  predicate LitAt(t: string, s: string, i: nat)
  {
    i + |t| <= |s| && s[i..i + |t|] == t
  }

  /** The groups captured when `p` matches `s` starting exactly at `i`, or None. */
  function MatchAt(p: seq<Tok>, s: string, i: nat): (r: Option<seq<string>>)
    requires i <= |s|
    ensures r.Some? ==> |r.value| == CaptureCount(p)
    decreases |p|
  {
    if p == [] then Some([])
    else match p[0]
      case Lit(t) => if LitAt(t, s, i) then MatchAt(p[1..], s, i + |t|) else None
      case Blanks => MatchAt(p[1..], s, RunEnd(s, i, Blank))
      case Word => Group(p, s, i, RunEnd(s, i, Not(Space)))
      case Digits => Group(p, s, i, RunEnd(s, i, Digit))
      case Line => Group(p, s, i, RunEnd(s, i, Not(Newline)))
  }

  /** `s[i..j]` captured by the repetition `p[0]`, then the rest of the pattern from `j`. */
  function Group(p: seq<Tok>, s: string, i: nat, j: nat): (r: Option<seq<string>>)
    requires p != [] && i <= j <= |s|
    ensures r.Some? ==> |r.value| == 1 + CaptureCount(p[1..])
    decreases |p|, 0
  {
    if j == i && !p[0].Line? then None
    else match MatchAt(p[1..], s, j)
      case None => None
      case Some(rest) => Some([s[i..j]] + rest)
  }

  datatype Hit = Hit(at: nat, captures: seq<string>)

  /** The k-th captured group of a match (every caller asks for one its pattern has). */
  function Captured(h: Hit, k: nat): string
  {
    if k < |h.captures| then h.captures[k] else ""
  }

  /** Positions where a match may start: anywhere, or, for a pattern with `^`, at the
      start of the string or right after a newline (Ruby's `^` is a line anchor). */
  predicate Eligible(s: string, j: nat, anchored: bool)
  {
    !anchored || j == 0 || (j <= |s| && s[j - 1] == '\n')
  }

  /** The leftmost match starting at or after `i`. */
  function SearchFrom(p: seq<Tok>, s: string, i: nat, anchored: bool): Option<Hit>
    requires i <= |s|
    decreases |s| - i
  {
    if Eligible(s, i, anchored) && MatchAt(p, s, i).Some? then Some(Hit(i, MatchAt(p, s, i).value))
    else if i == |s| then None
    else SearchFrom(p, s, i + 1, anchored)
  }

  /** SearchFrom finds the leftmost position, at or after `i`, where the pattern matches. */
  lemma {:induction false} SearchFromLeftmost(p: seq<Tok>, s: string, i: nat, anchored: bool)
    requires i <= |s|
    ensures var r := SearchFrom(p, s, i, anchored);
            && (r.Some? ==> i <= r.value.at <= |s| && Eligible(s, r.value.at, anchored)
                            && MatchAt(p, s, r.value.at) == Some(r.value.captures))
            && (r.Some? ==> forall j :: i <= j < r.value.at && Eligible(s, j, anchored) ==> MatchAt(p, s, j).None?)
            && (r.None? ==> forall j :: i <= j <= |s| && Eligible(s, j, anchored) ==> MatchAt(p, s, j).None?)
    decreases |s| - i
  {
    if !(Eligible(s, i, anchored) && MatchAt(p, s, i).Some?) && i < |s| {
      SearchFromLeftmost(p, s, i + 1, anchored);
    }
  }

  /** `pattern.match(s)` for a pattern without `^`. */
  function Search(p: seq<Tok>, s: string): Option<Hit>
  {
    SearchFrom(p, s, 0, false)
  }

  /** `pattern.match(s)` for a pattern that begins with `^`. */
  function SearchLines(p: seq<Tok>, s: string): Option<Hit>
  {
    SearchFrom(p, s, 0, true)
  }

  /** A pattern that starts with a literal absent from position i does not match there. */
  lemma LitHeadFails(p: seq<Tok>, t: string, s: string, i: nat)
    requires p != [] && p[0] == Lit(t) && i <= |s| && !LitAt(t, s, i)
    ensures MatchAt(p, s, i).None?
  {
  }

  /** A literal then `(\S+)` over the rest of a one-word text captures that word. */
  lemma LitThenWord(t: string, w: string)
    requires |w| > 0 && forall m :: 0 <= m < |w| ==> !InClass(w[m], Space)
    ensures MatchAt([Lit(t), Word], t + w, 0) == Some([w])
  {
    var p: seq<Tok> := [Lit(t), Word];
    var s := t + w;
    assert s[0..|t|] == t && s[|t|..] == w;
    assert forall m :: |t| <= m < |s| ==> s[m] == w[m - |t|];
    WordThen(p[1..], s, |t|, |s|);
    assert p[1..][1..] == [];
    assert MatchAt(p[1..][1..], s, |s|) == Some([]);
    assert s[|t|..|s|] == w && [w] + [] == [w];
    assert MatchAt(p[1..], s, |t|) == Some([w]);
    assert LitAt(t, s, 0);
  }

  /** A literal then `(\d+)` over the rest of an all-digit text captures those digits. */
  lemma LitThenDigits(t: string, d: string)
    requires |d| > 0 && forall m :: 0 <= m < |d| ==> InClass(d[m], Digit)
    ensures MatchAt([Lit(t), Digits], t + d, 0) == Some([d])
  {
    var p: seq<Tok> := [Lit(t), Digits];
    var s := t + d;
    assert s[0..|t|] == t && s[|t|..] == d;
    assert forall m :: |t| <= m < |s| ==> s[m] == d[m - |t|];
    DigitsThen(p[1..], s, |t|, |s|);
    assert p[1..][1..] == [];
    assert MatchAt(p[1..][1..], s, |s|) == Some([]);
    assert s[|t|..|s|] == d && [d] + [] == [d];
    assert MatchAt(p[1..], s, |t|) == Some([d]);
    assert LitAt(t, s, 0);
  }

  /** A literal that disagrees with the text in one place does not match there. */
  lemma LitMismatch(t: string, s: string, i: nat, m: nat)
    requires m < |t| && i + m < |s| && s[i + m] != t[m]
    ensures !LitAt(t, s, i)
  {
    if i + |t| <= |s| {
      assert s[i..i + |t|][m] == s[i + m];
    }
  }

  /** On a single line `^` can only match at the very start. */
  lemma SingleLineSearch(p: seq<Tok>, s: string)
    requires forall m :: 0 <= m < |s| ==> s[m] != '\n'
    ensures SearchLines(p, s) == if MatchAt(p, s, 0).Some? then Some(Hit(0, MatchAt(p, s, 0).value)) else None
  {
    var r := SearchLines(p, s);
    SearchFromLeftmost(p, s, 0, true);
    assert r.Some? ==> r.value.at == 0;
  }

  /** A match at the start of the string is the leftmost one. */
  lemma SearchAtStart(p: seq<Tok>, s: string)
    requires MatchAt(p, s, 0).Some?
    ensures Search(p, s) == Some(Hit(0, MatchAt(p, s, 0).value))
  {
  }

  /** A word followed by the rest of a pattern: the greedy `(\S+)` stops exactly at the
      first white-space character after a token. */
  lemma WordThen(p: seq<Tok>, s: string, i: nat, j: nat)
    requires p != [] && p[0] == Word && i < j <= |s|
    requires forall m :: i <= m < j ==> !InClass(s[m], Space)
    requires j == |s| || InClass(s[j], Space)
    ensures MatchAt(p, s, i) == match MatchAt(p[1..], s, j)
                                case None => None
                                case Some(rest) => Some([s[i..j]] + rest)
  {
    RunEndIs(s, i, Not(Space), j);
  }

  /** The same for `(\d+)`: the greedy repetition stops at the first non-digit. */
  lemma DigitsThen(p: seq<Tok>, s: string, i: nat, j: nat)
    requires p != [] && p[0] == Digits && i < j <= |s|
    requires forall m :: i <= m < j ==> InClass(s[m], Digit)
    requires j == |s| || !InClass(s[j], Digit)
    ensures MatchAt(p, s, i) == match MatchAt(p[1..], s, j)
                                case None => None
                                case Some(rest) => Some([s[i..j]] + rest)
  {
    RunEndIs(s, i, Digit, j);
  }

  /** `(\S+) ` over a token followed by a blank. */
  lemma WordThenBlank(p: seq<Tok>, s: string, i: nat, w: string, r: seq<string>)
    requires |p| >= 2 && p[0] == Word && p[1] == Lit(" ")
    requires Token(w, Space) && i + |w| < |s| && s[i..i + |w|] == w && s[i + |w|] == ' '
    requires MatchAt(p[2..], s, i + |w| + 1) == Some(r)
    ensures MatchAt(p, s, i) == Some([w] + r)
  {
    var j := i + |w|;
    assert MatchAt(p[1..], s, j) == Some(r) by {
      assert s[j..j + 1] == " ";
      LitStep(p[1..], " ", s, j);
      assert p[1..][1..] == p[2..];
    }
    assert MatchAt(p, s, i) == Some([s[i..j]] + r) by {
      WordInText(s, i, w);
      WordThen(p, s, i, j);
    }
  }

  /** The characters of a word found in the text are not white space. */
  lemma WordInText(s: string, i: nat, w: string)
    requires Token(w, Space) && i + |w| <= |s| && s[i..i + |w|] == w
    ensures forall m :: i <= m < i + |w| ==> !InClass(s[m], Space)
  {
    forall m | i <= m < i + |w|
      ensures !InClass(s[m], Space)
    {
      assert s[m] == w[m - i];
    }
  }

  /** A literal present at `i` is stepped over. */
  lemma LitStep(p: seq<Tok>, t: string, s: string, i: nat)
    requires p != [] && p[0] == Lit(t) && LitAt(t, s, i)
    ensures MatchAt(p, s, i) == MatchAt(p[1..], s, i + |t|)
  {
  }

  /** The greedy `(.*)` takes the rest of a line that has no newline. */
  lemma LineToEnd(p: seq<Tok>, s: string, i: nat)
    requires p == [Line] && i <= |s|
    requires forall m :: i <= m < |s| ==> s[m] != '\n'
    ensures MatchAt(p, s, i) == Some([s[i..]])
  {
    RunEndIs(s, i, Not(Newline), |s|);
    assert p[1..] == [];
    assert MatchAt(p[1..], s, |s|) == Some([]);
    assert [s[i..|s|]] + [] == [s[i..|s|]];
    assert Group(p, s, i, |s|) == Some([s[i..|s|]]);
    assert MatchAt(p, s, i) == Group(p, s, i, |s|);
    assert s[i..|s|] == s[i..];
  }
}
