/** The chat-driven camera head (lib/floating_head.rb): chat messages from the partner of the
    active call are read as commands that move the pan/tilt camera, within limits, and save,
    erase, list and recall named positions kept in a `locations` table. */
module Head {
  import opened Text
  import opened Regex
  import Skype
  import Camera

  // ---------------------------------------------------------------------------------------
  // Limits

  datatype Limits = Limits(panMin: int, panMax: int, tiltMin: int, tiltMax: int)

  /** The limits used when none are given on the command line. */
  const DefaultLimits := Limits(60, 120, 60, 120)

  predicate WithinLimits(l: Limits, pan: int, tilt: int)
  {
    l.panMin <= pan <= l.panMax && l.tiltMin <= tilt <= l.tiltMax
  }

  /** limits_exceeded?: the first bound violated, in the order pan minimum, pan maximum, tilt
      minimum, tilt maximum, described with the bound itself; None when none is. */
  function LimitsExceeded(l: Limits, pan: int, tilt: int): (reason: Option<string>)
    ensures reason.None? <==> WithinLimits(l, pan, tilt)
  {
    if pan < l.panMin then Some("pan < (" + IntToString(l.panMin) + ")")
    else if pan > l.panMax then Some("pan > (" + IntToString(l.panMax) + ")")
    else if tilt < l.tiltMin then Some("tilt < (" + IntToString(l.tiltMin) + ")")
    else if tilt > l.tiltMax then Some("tilt > (" + IntToString(l.tiltMax) + ")")
    else None
  }

  /** A pan outside its range is reported whatever the tilt, and a tilt only when the pan is
      fine; below the minimum wins over above the maximum when the range is empty. */
  lemma LimitsReportOrder(l: Limits, pan: int, tilt: int)
    ensures pan < l.panMin ==> LimitsExceeded(l, pan, tilt) == Some("pan < (" + IntToString(l.panMin) + ")")
    ensures l.panMin <= pan && l.panMax < pan ==> LimitsExceeded(l, pan, tilt) == Some("pan > (" + IntToString(l.panMax) + ")")
    ensures l.panMin <= pan <= l.panMax && tilt < l.tiltMin ==>
              LimitsExceeded(l, pan, tilt) == Some("tilt < (" + IntToString(l.tiltMin) + ")")
    ensures l.panMin <= pan <= l.panMax && l.tiltMin <= tilt && l.tiltMax < tilt ==>
              LimitsExceeded(l, pan, tilt) == Some("tilt > (" + IntToString(l.tiltMax) + ")")
  {
  }

  // ---------------------------------------------------------------------------------------
  // Commands

  /** A command with the text its groups captured (numbers are still text here). */
  datatype Command =
    | ShowHelp
    | ListLocations
    | SaveAs(name: string)
    | EraseNamed(name: string)
    | GoTo(name: string)
    | MoveTo(pan: string, tilt: string)
    | PanLeft(degrees: string)
    | PanRight(degrees: string)
    | TiltDown(degrees: string)
    | TiltUp(degrees: string)
    | NotUnderstood

  /** The literal each command pattern starts with, in the order they are tried. */
  const Keywords: seq<string> :=
    ["!help", "!list", "!save ", "!erase ", "!go ", "@", "!pos ", "!left ", "!right ", "!down ", "!up "]

  /** The command patterns, each anchored with `^`, in the order they are tried. */
  const Patterns: seq<seq<Tok>> :=
    [[Lit(Keywords[0])], [Lit(Keywords[1])], [Lit(Keywords[2]), Word], [Lit(Keywords[3]), Word],
     [Lit(Keywords[4]), Word], [Lit(Keywords[5]), Word],
     [Lit(Keywords[6]), Digits, Lit(","), Blanks, Digits],
     [Lit(Keywords[7]), Digits], [Lit(Keywords[8]), Digits], [Lit(Keywords[9]), Digits],
     [Lit(Keywords[10]), Digits]]

  lemma PatternsStartWithKeywords()
    ensures |Patterns| == |Keywords|
    ensures forall j :: 0 <= j < |Patterns| ==> |Patterns[j]| > 0 && Patterns[j][0] == Lit(Keywords[j])
  {
  }

  /** The first of `pats`, from the k-th on, that matches somewhere in the message, and its match. */
  function FirstMatch(pats: seq<seq<Tok>>, body: string, k: nat): (r: Option<(nat, Hit)>)
    requires k <= |pats|
    ensures r.Some? ==> k <= r.value.0 < |pats| && SearchLines(pats[r.value.0], body) == Some(r.value.1)
    ensures r.Some? ==> forall j :: k <= j < r.value.0 ==> SearchLines(pats[j], body).None?
    ensures r.None? ==> forall j :: k <= j < |pats| ==> SearchLines(pats[j], body).None?
    decreases |pats| - k
  {
    if k == |pats| then None
    else match SearchLines(pats[k], body)
      case Some(h) => Some((k, h))
      case None => FirstMatch(pats, body, k + 1)
  }

  /** The command the i-th pattern stands for; `@` is another spelling of `!go`. */
  function Build(i: nat, h: Hit): Command
  {
    if i == 0 then ShowHelp
    else if i == 1 then ListLocations
    else if i == 2 then SaveAs(Captured(h, 0))
    else if i == 3 then EraseNamed(Captured(h, 0))
    else if i == 4 || i == 5 then GoTo(Captured(h, 0))
    else if i == 6 then MoveTo(Captured(h, 0), Captured(h, 1))
    else if i == 7 then PanLeft(Captured(h, 0))
    else if i == 8 then PanRight(Captured(h, 0))
    else if i == 9 then TiltDown(Captured(h, 0))
    else if i == 10 then TiltUp(Captured(h, 0))
    else NotUnderstood
  }

  /** The `case` of handle_command: the first pattern that matches decides. */
  function ParseCommand(body: string): (c: Command)
    ensures c.NotUnderstood? <==> forall j :: 0 <= j < |Patterns| ==> SearchLines(Patterns[j], body).None?
  {
    match FirstMatch(Patterns, body, 0)
    case None => NotUnderstood
    case Some((i, h)) => Build(i, h)
  }

  /** On a one-line message, the first of `pats` that matches at the start is the first
      match. */
  lemma FirstMatchOneLine(pats: seq<seq<Tok>>, s: string, i: nat, caps: seq<string>)
    requires i < |pats| && forall m :: 0 <= m < |s| ==> s[m] != '\n'
    requires forall j :: 0 <= j < i ==> MatchAt(pats[j], s, 0).None?
    requires MatchAt(pats[i], s, 0) == Some(caps)
    ensures FirstMatch(pats, s, 0) == Some((i, Hit(0, caps)))
  {
    forall j | 0 <= j <= i
      ensures SearchLines(pats[j], s) == if j < i then None else Some(Hit(0, caps))
    {
      SingleLineSearch(pats[j], s);
    }
  }

  /** On a one-line message, the pattern whose keyword starts the message and that matches
      there is the one that decides, once no earlier keyword starts the message. */
  lemma Recognised(s: string, i: nat, caps: seq<string>)
    requires i < |Patterns| && forall m :: 0 <= m < |s| ==> s[m] != '\n'
    requires forall j :: 0 <= j < i ==> !LitAt(Keywords[j], s, 0)
    requires MatchAt(Patterns[i], s, 0) == Some(caps)
    ensures ParseCommand(s) == Build(i, Hit(0, caps))
  {
    PatternsStartWithKeywords();
    forall j | 0 <= j < i
      ensures MatchAt(Patterns[j], s, 0).None?
    {
      LitHeadFails(Patterns[j], Keywords[j], s, 0);
    }
    FirstMatchOneLine(Patterns, s, i, caps);
  }

  /** `<keyword><name>` for the commands that take a name. */
  lemma WordCommand(i: nat, name: string)
    requires 2 <= i <= 5 && Token(name, Space)
    requires forall j :: 0 <= j < i ==> !LitAt(Keywords[j], Keywords[i] + name, 0)
    ensures ParseCommand(Keywords[i] + name) == Build(i, Hit(0, [name]))
  {
    assert Patterns[i] == [Lit(Keywords[i]), Word];
    LitThenWord(Keywords[i], name);
    NoNewline(Keywords[i], name);
    Recognised(Keywords[i] + name, i, [name]);
  }

  /** `<keyword><digits>` for the relative moves. */
  lemma DigitsCommand(i: nat, d: string)
    requires 7 <= i <= 10 && |d| > 0 && AllDigits(d)
    requires forall j :: 0 <= j < i ==> !LitAt(Keywords[j], Keywords[i] + d, 0)
    ensures ParseCommand(Keywords[i] + d) == Build(i, Hit(0, [d]))
  {
    assert Patterns[i] == [Lit(Keywords[i]), Digits];
    LitThenDigits(Keywords[i], d);
    NoNewline(Keywords[i], d);
    Recognised(Keywords[i] + d, i, [d]);
  }

  /** Keywords hold no line break, so a keyword and a one-line argument make one line. */
  lemma NoNewline(kw: string, arg: string)
    requires kw in Keywords
    requires forall m :: 0 <= m < |arg| ==> arg[m] != '\n'
    ensures forall m :: 0 <= m < |kw + arg| ==> (kw + arg)[m] != '\n'
  {
  }

  /** A keyword that differs from the start of the message in character m does not match. */
  lemma KeywordMismatch(j: nat, s: string, m: nat)
    requires j < |Keywords| && m < |Keywords[j]| && m < |s| && s[m] != Keywords[j][m]
    ensures !LitAt(Keywords[j], s, 0)
  {
    LitMismatch(Keywords[j], s, 0, m);
  }

  lemma SaveRecognised(name: string)
    requires Token(name, Space)
    ensures ParseCommand("!save " + name) == SaveAs(name)
  {
    var s := Keywords[2] + name;
    KeywordMismatch(0, s, 1);
    KeywordMismatch(1, s, 1);
    WordCommand(2, name);
  }

  lemma EraseRecognised(name: string)
    requires Token(name, Space)
    ensures ParseCommand("!erase " + name) == EraseNamed(name)
  {
    var s := Keywords[3] + name;
    KeywordMismatch(0, s, 1);
    KeywordMismatch(1, s, 1);
    KeywordMismatch(2, s, 1);
    WordCommand(3, name);
  }

  /** `@name` is recognised as exactly the command `!go name` is. */
  lemma AtIsGo(name: string)
    requires Token(name, Space)
    ensures ParseCommand("!go " + name) == GoTo(name)
    ensures ParseCommand("@" + name) == GoTo(name)
  {
    GoRecognised(name);
    AtRecognised(name);
  }

  lemma GoRecognised(name: string)
    requires Token(name, Space)
    ensures ParseCommand(Keywords[4] + name) == GoTo(name)
  {
    var s := Keywords[4] + name;
    KeywordMismatch(0, s, 1);
    KeywordMismatch(1, s, 1);
    KeywordMismatch(2, s, 1);
    KeywordMismatch(3, s, 1);
    WordCommand(4, name);
  }

  lemma AtRecognised(name: string)
    requires Token(name, Space)
    ensures ParseCommand(Keywords[5] + name) == GoTo(name)
  {
    var a := Keywords[5] + name;
    forall j | 0 <= j < 5 ensures !LitAt(Keywords[j], a, 0) {
      KeywordMismatch(j, a, 0);
    }
    WordCommand(5, name);
  }

  /** `!right`, `!down` and `!up` differ from every earlier keyword in their second character. */
  lemma LaterMoveRecognised(i: nat, d: string)
    requires 8 <= i <= 10 && |d| > 0 && AllDigits(d)
    ensures ParseCommand(Keywords[i] + d) == Build(i, Hit(0, [d]))
  {
    var s := Keywords[i] + d;
    forall j | 0 <= j < i ensures !LitAt(Keywords[j], s, 0) {
      KeywordMismatch(j, s, if j == 5 then 0 else 1);
    }
    DigitsCommand(i, d);
  }

  lemma MovesRecognised(d: string)
    requires |d| > 0 && AllDigits(d)
    ensures ParseCommand("!left " + d) == PanLeft(d)
    ensures ParseCommand("!right " + d) == PanRight(d)
    ensures ParseCommand("!down " + d) == TiltDown(d)
    ensures ParseCommand("!up " + d) == TiltUp(d)
  {
    var l := Keywords[7] + d;
    KeywordMismatch(0, l, 1);
    KeywordMismatch(1, l, 2);
    KeywordMismatch(2, l, 1);
    KeywordMismatch(3, l, 1);
    KeywordMismatch(4, l, 1);
    KeywordMismatch(5, l, 0);
    KeywordMismatch(6, l, 1);
    DigitsCommand(7, d);
    LaterMoveRecognised(8, d);
    LaterMoveRecognised(9, d);
    LaterMoveRecognised(10, d);
  }

  /** `!pos <pan>, <tilt>` captures both numbers as written. */
  lemma PosRecognised(pan: string, tilt: string)
    requires |pan| > 0 && AllDigits(pan) && |tilt| > 0 && AllDigits(tilt)
    ensures ParseCommand("!pos " + pan + ", " + tilt) == MoveTo(pan, tilt)
  {
    var s := Keywords[6] + pan + ", " + tilt;
    PosLayout(Keywords[6], pan, tilt);
    PosMatch(Patterns[6], s, Keywords[6], pan, tilt);
    forall j | 0 <= j < 6 ensures !LitAt(Keywords[j], s, 0) {
      KeywordMismatch(j, s, if j == 5 then 0 else 1);
    }
    Recognised(s, 6, [pan, tilt]);
  }

  lemma PosLayout(kw: string, pan: string, tilt: string)
    ensures var s := kw + pan + ", " + tilt;
            && |s| == |kw| + |pan| + 2 + |tilt|
            && s[0..|kw|] == kw && s[|kw|..|kw| + |pan|] == pan
            && s[|kw| + |pan|..|kw| + |pan| + 1] == "," && s[|kw| + |pan| + 1] == ' '
            && s[|kw| + |pan| + 2..] == tilt
  {
    var s := kw + pan + ", " + tilt;
    assert s == kw + (pan + (", " + tilt));
  }

  lemma PosMatch(p: seq<Tok>, s: string, kw: string, pan: string, tilt: string)
    requires p == [Lit(kw), Digits, Lit(","), Blanks, Digits]
    requires |pan| > 0 && AllDigits(pan) && |tilt| > 0 && AllDigits(tilt)
    requires |s| == |kw| + |pan| + 2 + |tilt|
    requires s[0..|kw|] == kw && s[|kw|..|kw| + |pan|] == pan
    requires s[|kw| + |pan|..|kw| + |pan| + 1] == "," && s[|kw| + |pan| + 1] == ' '
    requires s[|kw| + |pan| + 2..] == tilt
    ensures MatchAt(p, s, 0) == Some([pan, tilt])
  {
    var i1 := |kw|;
    var i2 := i1 + |pan|;
    assert forall m :: i1 <= m < i2 ==> s[m] == pan[m - i1];
    PosTail(p[2..], s, i2, tilt);
    DigitsThen(p[1..], s, i1, i2);
    assert p[1..][1..] == p[2..];
    assert [pan] + [tilt] == [pan, tilt];
    assert MatchAt(p[1..], s, i1) == Some([pan, tilt]);
  }

  /** `, *(\d+)` after the pan: the blanks are skipped and the tilt is captured. */
  lemma PosTail(p: seq<Tok>, s: string, i2: nat, tilt: string)
    requires p == [Lit(","), Blanks, Digits]
    requires |tilt| > 0 && AllDigits(tilt)
    requires i2 + 2 + |tilt| == |s|
    requires s[i2..i2 + 1] == "," && s[i2 + 1] == ' ' && s[i2 + 2..] == tilt
    ensures MatchAt(p, s, i2) == Some([tilt])
  {
    var i3 := i2 + 2;
    assert forall m :: i3 <= m < |s| ==> s[m] == tilt[m - i3];
    var q := p[2..];
    assert q == [Digits];
    DigitsThen(q, s, i3, |s|);
    assert MatchAt(q[1..], s, |s|) == Some([]);
    assert s[i3..|s|] == tilt && [tilt] + [] == [tilt];
    assert MatchAt(q, s, i3) == Some([tilt]);
    RunEndIs(s, i2 + 1, Blank, i3);
    assert p[1..][1..] == q;
    assert MatchAt(p[1..], s, i2 + 1) == Some([tilt]);
  }

  /** `^` anchors at every line: `!help` at the start of any line makes the whole message a
      help request, whatever the lines before it say. */
  lemma HelpOnAnyLine(before: string, after: string)
    ensures ParseCommand(before + "\n!help" + after) == ShowHelp
  {
    var s := before + "\n!help" + after;
    var j := |before| + 1;
    assert s[j..j + 5] == "!help";
    assert Patterns[0] == [Lit("!help")];
    assert MatchAt(Patterns[0], s, j).Some?;
    assert Eligible(s, j, true);
    SearchFromLeftmost(Patterns[0], s, 0, true);
  }

  /** A one-line message that starts with neither `!` nor `@` is not understood. */
  lemma PlainTextUnknown(s: string)
    requires forall m :: 0 <= m < |s| ==> s[m] != '\n'
    requires s == [] || (s[0] != '!' && s[0] != '@')
    ensures ParseCommand(s) == NotUnderstood
  {
    PatternsStartWithKeywords();
    KeywordsStartWithBangOrAt();
    NoKeywordStart(Patterns, Keywords, s);
  }

  /** Patterns that each start with their keyword, all of which begin with `!` or `@`, find
      nothing on a one-line message that begins otherwise. */
  lemma NoKeywordStart(pats: seq<seq<Tok>>, kws: seq<string>, s: string)
    requires |pats| == |kws|
    requires forall j :: 0 <= j < |pats| ==> |pats[j]| > 0 && pats[j][0] == Lit(kws[j])
    requires forall j :: 0 <= j < |kws| ==> |kws[j]| > 0 && kws[j][0] in {'!', '@'}
    requires forall m :: 0 <= m < |s| ==> s[m] != '\n'
    requires s == [] || (s[0] != '!' && s[0] != '@')
    ensures FirstMatch(pats, s, 0).None?
  {
    forall j | 0 <= j < |pats|
      ensures MatchAt(pats[j], s, 0).None?
    {
      if s != [] {
        LitMismatch(kws[j], s, 0, 0);
      }
      LitHeadFails(pats[j], kws[j], s, 0);
    }
    NoMatchOneLine(pats, s);
  }

  /** On a one-line message, patterns that fail at the start fail everywhere. */
  lemma NoMatchOneLine(pats: seq<seq<Tok>>, s: string)
    requires forall m :: 0 <= m < |s| ==> s[m] != '\n'
    requires forall j :: 0 <= j < |pats| ==> MatchAt(pats[j], s, 0).None?
    ensures FirstMatch(pats, s, 0).None?
  {
    forall j | 0 <= j < |pats|
      ensures SearchLines(pats[j], s).None?
    {
      SingleLineSearch(pats[j], s);
    }
  }

  lemma KeywordsStartWithBangOrAt()
    ensures forall j :: 0 <= j < |Keywords| ==> |Keywords[j]| > 0 && Keywords[j][0] in {'!', '@'}
  {
  }

  // ---------------------------------------------------------------------------------------
  // The locations table

  /** A row of the `locations` table. */
  datatype Row = Row(name: string, pan: int, tilt: int)

  /** The index of the first row with the name, as `get_first_row` finds it in insertion order. */
  function FirstNamed(rows: seq<Row>, name: string): (k: Option<nat>)
    ensures k.Some? ==> k.value < |rows| && rows[k.value].name == name
                        && forall j :: 0 <= j < k.value ==> rows[j].name != name
    ensures k.None? ==> forall j :: 0 <= j < |rows| ==> rows[j].name != name
  {
    if rows == [] then None
    else if rows[0].name == name then Some(0)
    else match FirstNamed(rows[1..], name)
      case None => None
      case Some(k) => Some(k + 1)
  }

  function Lookup(rows: seq<Row>, name: string): Option<Row>
  {
    match FirstNamed(rows, name)
    case None => None
    case Some(k) => Some(rows[k])
  }

  /** `DELETE ... WHERE name = ?`: every row with the name goes, the others stay in order. */
  function RemoveNamed(rows: seq<Row>, name: string): (r: seq<Row>)
    ensures forall x :: x in r <==> x in rows && x.name != name
  {
    if rows == [] then []
    else (if rows[0].name == name then [] else [rows[0]]) + RemoveNamed(rows[1..], name)
  }

  /** DELETE keeps every other row in its place: erasing from two runs of rows erases from
      each in turn. */
  lemma {:induction false} RemoveNamedAppend(a: seq<Row>, b: seq<Row>, name: string)
    ensures RemoveNamed(a + b, name) == RemoveNamed(a, name) + RemoveNamed(b, name)
    decreases |a|
  {
    if a == [] {
      assert a + b == b;
    } else {
      assert (a + b)[0] == a[0] && (a + b)[1..] == a[1..] + b;
      RemoveNamedAppend(a[1..], b, name);
    }
  }

  /** One row more at the end of the table: it goes exactly when it carries the name. */
  lemma RemoveNamedSnoc(rows: seq<Row>, x: Row, name: string)
    ensures RemoveNamed(rows + [x], name) == RemoveNamed(rows, name) + if x.name == name then [] else [x]
  {
    RemoveNamedAppend(rows, [x], name);
    assert [x][1..] == [];
  }

  /** Saving appends: a name saved before keeps resolving to its first row, a new one to the
      new row, and other names are not affected. */
  lemma {:induction false} LookupAfterSave(rows: seq<Row>, x: Row, name: string)
    ensures Lookup(rows + [x], name) ==
              if Lookup(rows, name).Some? then Lookup(rows, name)
              else if x.name == name then Some(x) else None
  {
    assert forall j :: 0 <= j < |rows| ==> (rows + [x])[j] == rows[j];
    assert (rows + [x])[|rows|] == x;
  }

  /** After an erase the name is unknown, and every other name resolves as before. */
  lemma {:induction false} LookupAfterErase(rows: seq<Row>, erased: string, name: string)
    ensures Lookup(RemoveNamed(rows, erased), name) == if name == erased then None else Lookup(rows, name)
  {
    if rows != [] {
      LookupAfterErase(rows[1..], erased, name);
      var tail := RemoveNamed(rows[1..], erased);
      if rows[0].name == erased {
        assert RemoveNamed(rows, erased) == tail;
        if name != erased {
          assert Lookup(rows, name) == Lookup(rows[1..], name);
        }
      } else {
        var r := RemoveNamed(rows, erased);
        assert r == [rows[0]] + tail;
        if rows[0].name == name {
        } else {
          assert r[1..] == tail;
          assert Lookup(r, name) == Lookup(tail, name);
          assert Lookup(rows, name) == Lookup(rows[1..], name);
        }
      }
    }
  }

  // ---------------------------------------------------------------------------------------
  // Replies

  /** The help lines joined with newlines; the last line is empty, so the text ends in a
      newline. */
  const HelpText: string :=
    "The following commands are understood:\n"
    + "  !help | Show this help.\n"
    + "  !list | List all saved camera positions.\n"
    + "  !save <name> | Save the current camera position as <name>.\n"
    + "  !erase <name> | Erase the saved camera position as <name>.\n"
    + "  !pos <pan>, <tilt> | Position the camera at <pan>, <tilt> degrees.\n"
    + "  !left <deg> | Pan the camera <deg> degrees left.\n"
    + "  !right <deg> | Pan the camera <deg> degrees right.\n"
    + "  !down <deg> | Tilt the camera <deg> degrees down.\n"
    + "  !up <deg> | Tilt the camera <deg> degrees up.\n"
    + "  !go <name> | Go to saved camera position <name>.\n"
    + "  @<name> | Alias for !go <name>.\n"

  const ListHeader := "The following locations are known:\n"
  const NoLocations := "No locations known!"

  function RowLine(r: Row): string
  {
    "  " + r.name + " (" + IntToString(r.pan) + ", " + IntToString(r.tilt) + ")\n"
  }

  /** The text made of one line per row, in table order. */
  function Lines(line: Row -> string, rows: seq<Row>): string
  {
    if rows == [] then "" else line(rows[0]) + Lines(line, rows[1..])
  }

  function ListReply(rows: seq<Row>): string
  {
    if rows == [] then NoLocations else ListHeader + Lines(RowLine, rows)
  }

  lemma {:induction false} LinesAppend(line: Row -> string, a: seq<Row>, b: seq<Row>)
    ensures Lines(line, a + b) == Lines(line, a) + Lines(line, b)
  {
    if a == [] {
      assert a + b == b;
    } else {
      assert (a + b)[1..] == a[1..] + b;
      LinesAppend(line, a[1..], b);
      var x, y, z := line(a[0]), Lines(line, a[1..]), Lines(line, b);
      assert (x + y) + z == x + (y + z);
    }
  }

  lemma LinesSnoc(line: Row -> string, rows: seq<Row>, i: nat)
    requires i < |rows|
    ensures Lines(line, rows[..i + 1]) == Lines(line, rows[..i]) + line(rows[i])
  {
    assert rows[..i + 1] == rows[..i] + [rows[i]];
    LinesAppend(line, rows[..i], [rows[i]]);
    assert Lines(line, [rows[i]]) == line(rows[i]) + Lines(line, []);
  }

  /** The line of the k-th row sits between those of the rows before it and after it. */
  lemma LinesShowEveryRow(line: Row -> string, rows: seq<Row>, k: nat)
    requires k < |rows|
    ensures Lines(line, rows) == Lines(line, rows[..k]) + line(rows[k]) + Lines(line, rows[k + 1..])
  {
    var before, from := rows[..k], rows[k..];
    assert rows == before + from;
    LinesAppend(line, before, from);
    assert from[0] == rows[k] && from[1..] == rows[k + 1..];
    var x, y, z := Lines(line, before), line(rows[k]), Lines(line, rows[k + 1..]);
    assert Lines(line, from) == y + z;
    assert (x + y) + z == x + (y + z);
  }

  // ---------------------------------------------------------------------------------------
  // What a command does

  /** The effect of one command: the new table, where the camera is sent (if anywhere), and
      the reply. */
  datatype Outcome = Outcome(rows: seq<Row>, target: Option<(int, int)>, answer: Answer)

  /** What a command answers, before it is put into words by ReplyText. */
  datatype Answer =
    | HelpAnswer
    | Listing(listed: seq<Row>)
    | SavedAt(saved: string, savedPan: int, savedTilt: int)
    | ErasedName(erased: string)
    | UnknownLocation(unknown: string)
    | Refused(reason: string)
    | GoingTo(pan: int, tilt: int)
    | NotUnderstoodAnswer(body: string)

  /** The text of each reply, character for character. */
  function ReplyText(a: Answer): string
  {
    match a
    case HelpAnswer => HelpText
    case Listing(rows) => ListReply(rows)
    case SavedAt(name, pan, tilt) => "Saved '" + name + "' as (" + IntToString(pan) + ", " + IntToString(tilt) + ")!"
    case ErasedName(name) => "Erased '" + name + "'!"
    case UnknownLocation(name) => "Location '" + name + "' is not known!"
    case Refused(reason) => "Limits exceeded (" + reason + ")! Try to be reasonable."
    case GoingTo(pan, tilt) => "Going to (" + IntToString(pan) + ", " + IntToString(tilt) + ")!"
    case NotUnderstoodAnswer(body) => "Didn't understand '" + body + "'! Try '!help' for help."
  }

  /** pos: move and confirm when no limit is exceeded, otherwise refuse and stay. */
  function PosOutcome(l: Limits, rows: seq<Row>, pan: int, tilt: int): Outcome
  {
    match LimitsExceeded(l, pan, tilt)
    case Some(reason) => Outcome(rows, None, Refused(reason))
    case None => Outcome(rows, Some((pan, tilt)), GoingTo(pan, tilt))
  }

  /** handle_command after the pattern choice, with the table `rows` and the camera at `at`,
      in its corrected form: the `!pos` captures are converted with `to_i` and the limits are
      Integers. PosRaisesAsWritten and StringLimitsAsWritten state the code as written. */
  function Respond(l: Limits, rows: seq<Row>, at: (int, int), cmd: Command, body: string): Outcome
  {
    match cmd
    case ShowHelp => Outcome(rows, None, HelpAnswer)
    case ListLocations => Outcome(rows, None, Listing(rows))
    case SaveAs(name) => Outcome(rows + [Row(name, at.0, at.1)], None, SavedAt(name, at.0, at.1))
    case EraseNamed(name) => Outcome(RemoveNamed(rows, name), None, ErasedName(name))
    case GoTo(name) =>
      (match Lookup(rows, name)
       case None => Outcome(rows, None, UnknownLocation(name))
       case Some(row) => PosOutcome(l, rows, row.pan, row.tilt))
    case MoveTo(pan, tilt) => PosOutcome(l, rows, ToI(pan), ToI(tilt))
    case PanLeft(_) | PanRight(_) | TiltDown(_) | TiltUp(_) =>
      PosOutcome(l, rows, Requested(at, cmd).0, Requested(at, cmd).1)
    case NotUnderstood => Outcome(rows, None, NotUnderstoodAnswer(body))
  }

  /** The camera moves exactly when the requested position is within the limits, and then
      to exactly that position; the table never changes. */
  lemma PosMovesOnlyWithinLimits(l: Limits, rows: seq<Row>, pan: int, tilt: int)
    ensures PosOutcome(l, rows, pan, tilt).rows == rows
    ensures PosOutcome(l, rows, pan, tilt).target.Some? <==> WithinLimits(l, pan, tilt)
    ensures PosOutcome(l, rows, pan, tilt).target.Some? ==> PosOutcome(l, rows, pan, tilt).target.value == (pan, tilt)
  {
  }

  predicate IsRelativeMove(cmd: Command)
  {
    cmd.PanLeft? || cmd.PanRight? || cmd.TiltDown? || cmd.TiltUp?
  }

  /** Where a relative move asks the camera to go from `at`: left and right change the pan
      by the degrees and keep the tilt, down and up change the tilt and keep the pan. */
  function Requested(at: (int, int), cmd: Command): (int, int)
    requires IsRelativeMove(cmd)
  {
    match cmd
    case PanLeft(d) => (at.0 - ToI(d), at.1)
    case PanRight(d) => (at.0 + ToI(d), at.1)
    case TiltDown(d) => (at.0, at.1 - ToI(d))
    case TiltUp(d) => (at.0, at.1 + ToI(d))
  }

  /** A relative move goes exactly to the requested position when that is within the limits,
      stays otherwise, and never changes the table. */
  lemma RelativeMoves(l: Limits, rows: seq<Row>, at: (int, int), cmd: Command, body: string)
    requires IsRelativeMove(cmd)
    ensures var o := Respond(l, rows, at, cmd, body);
            && o.rows == rows
            && (o.target.Some? <==> WithinLimits(l, Requested(at, cmd).0, Requested(at, cmd).1))
            && (o.target.Some? ==> o.target.value == Requested(at, cmd))
  {
    PosMovesOnlyWithinLimits(l, rows, Requested(at, cmd).0, Requested(at, cmd).1);
  }

  /** `!left d` then `!right d` comes back to where the camera was, when both are allowed. */
  lemma LeftThenRight(l: Limits, rows: seq<Row>, at: (int, int), digits: string, body: string)
    requires |digits| > 0 && AllDigits(digits) && WithinLimits(l, at.0, at.1)
    requires WithinLimits(l, at.0 - ToI(digits), at.1)
    ensures var o1 := Respond(l, rows, at, PanLeft(digits), body);
            && o1.target == Some((at.0 - ToI(digits), at.1))
            && Respond(l, o1.rows, o1.target.value, PanRight(digits), body).target == Some(at)
  {
  }

  /** `!pos p, t` with numbers within the limits moves the camera there. */
  lemma PosCommandMoves(l: Limits, rows: seq<Row>, at: (int, int), pan: nat, tilt: nat, body: string)
    requires WithinLimits(l, pan, tilt)
    ensures Respond(l, rows, at, ParseCommand("!pos " + IntToString(pan) + ", " + IntToString(tilt)), body).target
            == Some((pan, tilt))
  {
    NatToStringDigits(pan);
    NatToStringDigits(tilt);
    PosRecognised(IntToString(pan), IntToString(tilt));
    ToIOfIntToString(pan);
    ToIOfIntToString(tilt);
  }

  /** A message that is not understood changes neither the table nor the camera. */
  lemma UnknownChangesNothing(l: Limits, rows: seq<Row>, at: (int, int), body: string)
    requires ParseCommand(body) == NotUnderstood
    ensures var o := Respond(l, rows, at, ParseCommand(body), body);
            o.rows == rows && o.target.None?
            && ReplyText(o.answer) == "Didn't understand '" + body + "'! Try '!help' for help."
  {
  }

  /** `@name` and `!go name` have the same effect. */
  lemma AtAliasesGo(l: Limits, rows: seq<Row>, at: (int, int), name: string)
    requires Token(name, Space)
    ensures Respond(l, rows, at, ParseCommand("@" + name), "@" + name)
            == Respond(l, rows, at, ParseCommand("!go " + name), "!go " + name)
  {
    AtIsGo(name);
  }

  /** `!save X` then `!go X` sends the camera back to where it was saved, unless X was
      saved before, in which case the first saving is the one recalled. */
  lemma SaveThenGo(l: Limits, rows: seq<Row>, at: (int, int), later: (int, int), name: string, b1: string, b2: string)
    requires WithinLimits(l, at.0, at.1)
    ensures var saved := Respond(l, rows, at, SaveAs(name), b1).rows;
            var o := Respond(l, saved, later, GoTo(name), b2);
            && (Lookup(rows, name).None? ==> o.target == Some(at))
            && (Lookup(rows, name).Some? ==> o == Respond(l, rows, later, GoTo(name), b2).(rows := saved))
  {
    LookupAfterSave(rows, Row(name, at.0, at.1), name);
  }

  /** After `!erase X`, `!go X` answers that X is not known and leaves the camera. */
  lemma EraseThenGo(l: Limits, rows: seq<Row>, at: (int, int), later: (int, int), name: string, b1: string, b2: string)
    ensures var erased := Respond(l, rows, at, EraseNamed(name), b1).rows;
            var o := Respond(l, erased, later, GoTo(name), b2);
            o.target.None? && o.rows == erased
            && ReplyText(o.answer) == "Location '" + name + "' is not known!"
  {
    var erased := RemoveNamed(rows, name);
    assert Respond(l, rows, at, EraseNamed(name), b1).rows == erased;
    LookupAfterErase(rows, name, name);
    assert Respond(l, erased, later, GoTo(name), b2) == Outcome(erased, None, UnknownLocation(name));
  }

  // ---------------------------------------------------------------------------------------
  // The message loop's bookkeeping

  /** The chats of the messages the block acted on, in order. */
  function HandledChats(ev: seq<Skype.UnreadEvent>): seq<string>
  {
    if ev == [] then []
    else HandledChats(ev[..|ev| - 1])
         + (if ev[|ev| - 1].Yielded? && ev[|ev| - 1].handled then [ev[|ev| - 1].chat] else [])
  }

  lemma {:induction false} HandledChatsAppend(a: seq<Skype.UnreadEvent>, b: seq<Skype.UnreadEvent>)
    ensures HandledChats(a + b) == HandledChats(a) + HandledChats(b)
    decreases |b|
  {
    if b == [] {
      assert a + b == a;
    } else {
      assert (a + b)[..|a + b| - 1] == a + b[..|b| - 1];
      HandledChatsAppend(a, b[..|b| - 1]);
    }
  }

  /** The chats replied to, in order. */
  function ReplyChats(out: seq<(string, Answer)>): seq<string>
  {
    if out == [] then [] else ReplyChats(out[..|out| - 1]) + [out[|out| - 1].0]
  }

  lemma {:induction false} ReplyChatsAppend(a: seq<(string, Answer)>, b: seq<(string, Answer)>)
    ensures ReplyChats(a + b) == ReplyChats(a) + ReplyChats(b)
    decreases |b|
  {
    if b == [] {
      assert a + b == a;
    } else {
      assert (a + b)[..|a + b| - 1] == a + b[..|b| - 1];
      ReplyChatsAppend(a, b[..|b| - 1]);
    }
  }

  /** The text handle_command is given for a message whose BODY is `body`: a nil body matches
      no pattern and interpolates as the empty string, as the empty string does. */
  function BodyText(body: Option<Skype.Value>): string
  {
    if body.Some? && body.value.Str? then body.value.text else ""
  }

  // ---------------------------------------------------------------------------------------
  // The head

  class FloatingHead {
    const camera: Camera.SerialPanTilt
    const session: Skype.SkypeEvents
    const limits: Limits
    /** The `locations` table, in insertion order. */
    var rows: seq<Row>
    /** Every reply, as (chat id, answer), oldest first; the text sent is ReplyText of the
        answer. */
    var outbox: seq<(string, Answer)>

    /** The table may already hold rows saved in earlier runs. */
    constructor (camera: Camera.SerialPanTilt, session: Skype.SkypeEvents, limits: Limits, rows: seq<Row>)
      ensures this.camera == camera && this.session == session && this.limits == limits
      ensures this.rows == rows && outbox == []
    {
      this.camera, this.session, this.limits := camera, session, limits;
      this.rows, outbox := rows, [];
    }

    /** The table, the replies and the camera are as the outcome `o` says. */
    twostate predicate Answered(chat: string, o: Outcome)
      reads this, camera
    {
      && rows == o.rows
      && outbox == old(outbox) + [(chat, o.answer)]
      && if o.target.Some?
         then camera.Position() == o.target.value
              && camera.written == old(camera.written) + [Camera.PanCommand(o.target.value.0), Camera.TiltCommand(o.target.value.1)]
         else camera.Position() == old(camera.Position()) && camera.written == old(camera.written)
    }

    method Reply(chat: string, answer: Answer)
      modifies this`outbox
      ensures outbox == old(outbox) + [(chat, answer)]
    {
      outbox := outbox + [(chat, answer)];
    }

    method Help(chat: string)
      modifies this`outbox
      ensures Answered(chat, Respond(limits, old(rows), old(camera.Position()), ShowHelp, ""))
    {
      Reply(chat, HelpAnswer);
    }

    /** list_locations: the reply's text is the one the loop over the table builds. */
    method List(chat: string)
      modifies this`outbox
      ensures Answered(chat, Respond(limits, old(rows), old(camera.Position()), ListLocations, ""))
    {
      var text := ListText();
      assert text == ReplyText(Listing(rows));
      Reply(chat, Listing(rows));
    }

    /** The text list replies with, built line by line from the table. */
    method ListText() returns (text: string)
      ensures text == ListReply(rows)
    {
      if rows == [] {
        return NoLocations;
      }
      var lines := "";
      var i := 0;
      while i < |rows|
        invariant 0 <= i <= |rows|
        invariant lines == Lines(RowLine, rows[..i])
      {
        LinesSnoc(RowLine, rows, i);
        lines := lines + RowLine(rows[i]);
        i := i + 1;
      }
      assert rows[..i] == rows;
      text := ListHeader + lines;
    }

    method Save(chat: string, name: string, pan: int, tilt: int)
      modifies this`rows, this`outbox
      ensures Answered(chat, Respond(limits, old(rows), (pan, tilt), SaveAs(name), ""))
    {
      rows := rows + [Row(name, pan, tilt)];
      Reply(chat, SavedAt(name, pan, tilt));
    }

    method Erase(chat: string, name: string)
      modifies this`rows, this`outbox
      ensures Answered(chat, Respond(limits, old(rows), old(camera.Position()), EraseNamed(name), ""))
    {
      rows := RemoveNamed(rows, name);
      Reply(chat, ErasedName(name));
    }

    method Pos(chat: string, pan: int, tilt: int)
      modifies this`outbox, camera
      ensures Answered(chat, PosOutcome(limits, old(rows), pan, tilt))
    {
      var reason := LimitsExceeded(limits, pan, tilt);
      if reason.Some? {
        Reply(chat, Refused(reason.value));
      } else {
        camera.PanTilt(pan, tilt);
        Reply(chat, GoingTo(pan, tilt));
      }
    }

    method Go(chat: string, name: string)
      modifies this`outbox, camera
      ensures Answered(chat, Respond(limits, old(rows), old(camera.Position()), GoTo(name), ""))
    {
      var location := Lookup(rows, name);
      if location.None? {
        Reply(chat, UnknownLocation(name));
        return;
      }
      Pos(chat, location.value.pan, location.value.tilt);
    }

    method Left(chat: string, degrees: string)
      modifies this`outbox, camera
      ensures Answered(chat, Respond(limits, old(rows), old(camera.Position()), PanLeft(degrees), ""))
    {
      Pos(chat, camera.panPosition - ToI(degrees), camera.tiltPosition);
    }

    method Right(chat: string, degrees: string)
      modifies this`outbox, camera
      ensures Answered(chat, Respond(limits, old(rows), old(camera.Position()), PanRight(degrees), ""))
    {
      Pos(chat, camera.panPosition + ToI(degrees), camera.tiltPosition);
    }

    method Down(chat: string, degrees: string)
      modifies this`outbox, camera
      ensures Answered(chat, Respond(limits, old(rows), old(camera.Position()), TiltDown(degrees), ""))
    {
      Pos(chat, camera.panPosition, camera.tiltPosition - ToI(degrees));
    }

    method Up(chat: string, degrees: string)
      modifies this`outbox, camera
      ensures Answered(chat, Respond(limits, old(rows), old(camera.Position()), TiltUp(degrees), ""))
    {
      Pos(chat, camera.panPosition, camera.tiltPosition + ToI(degrees));
    }

    /** handle_command: the first pattern that matches picks the command; `!save` stores the
        camera's current position; `!pos` and the limits take their corrected form, as in Respond. */
    method HandleCommand(chat: string, message: string)
      modifies this`rows, this`outbox, camera
      ensures Answered(chat, Respond(limits, old(rows), old(camera.Position()), ParseCommand(message), message))
    {
      Dispatch(chat, ParseCommand(message), message);
    }

    /** The branch of handle_command taken for the command `cmd` read from `message`. */
    method Dispatch(chat: string, cmd: Command, message: string)
      modifies this`rows, this`outbox, camera
      ensures Answered(chat, Respond(limits, old(rows), old(camera.Position()), cmd, message))
    {
      if cmd.ShowHelp? || cmd.ListLocations? || cmd.SaveAs? || cmd.EraseNamed? || cmd.NotUnderstood? {
        DispatchTable(chat, cmd, message);
      } else {
        DispatchMove(chat, cmd, message);
      }
    }

    /** The branches that answer or change the table and leave the camera alone. */
    method DispatchTable(chat: string, cmd: Command, message: string)
      requires cmd.ShowHelp? || cmd.ListLocations? || cmd.SaveAs? || cmd.EraseNamed? || cmd.NotUnderstood?
      modifies this`rows, this`outbox
      ensures Answered(chat, Respond(limits, old(rows), old(camera.Position()), cmd, message))
    {
      match cmd
      case ShowHelp => Help(chat);
      case ListLocations => List(chat);
      case SaveAs(name) => Save(chat, name, camera.panPosition, camera.tiltPosition);
      case EraseNamed(name) => Erase(chat, name);
      case NotUnderstood => Reply(chat, NotUnderstoodAnswer(message));
    }

    /** The branches that may move the camera. */
    method DispatchMove(chat: string, cmd: Command, message: string)
      requires cmd.GoTo? || cmd.MoveTo? || cmd.PanLeft? || cmd.PanRight? || cmd.TiltDown? || cmd.TiltUp?
      modifies this`outbox, camera
      ensures Answered(chat, Respond(limits, old(rows), old(camera.Position()), cmd, message))
    {
      ghost var rows0, at := rows, camera.Position();
      match cmd
      case GoTo(name) =>
        assert Respond(limits, rows0, at, cmd, message) == Respond(limits, rows0, at, cmd, "");
        Go(chat, name);
      case MoveTo(pan, tilt) =>
        assert Respond(limits, rows0, at, cmd, message) == PosOutcome(limits, rows0, ToI(pan), ToI(tilt));
        Pos(chat, ToI(pan), ToI(tilt));
      case PanLeft(d) =>
        assert Respond(limits, rows0, at, cmd, message) == Respond(limits, rows0, at, cmd, "");
        Left(chat, d);
      case PanRight(d) =>
        assert Respond(limits, rows0, at, cmd, message) == Respond(limits, rows0, at, cmd, "");
        Right(chat, d);
      case TiltDown(d) =>
        assert Respond(limits, rows0, at, cmd, message) == Respond(limits, rows0, at, cmd, "");
        Down(chat, d);
      case TiltUp(d) =>
        assert Respond(limits, rows0, at, cmd, message) == Respond(limits, rows0, at, cmd, "");
        Up(chat, d);
    }

    /** active_call_partner? of the head: false (nil) without an active call, otherwise whether
        the call's PARTNER_HANDLE equals the handle, nil included. SEARCH ACTIVECALLS is sent first. */
    method IsActiveCallPartner(handle: Option<Skype.Value>) returns (partner: bool)
      modifies session
      ensures partner <==> PartnerIs(session, |old(session.sent)|, handle)
      ensures |session.sent| > |old(session.sent)| && session.sent[|old(session.sent)|] == Skype.SearchCallsCommand
      ensures old(session.sent) <= session.sent
      ensures Skype.CacheAnswered(old(session.cache), session.cache, session.sent, |old(session.sent)|, session.remote)
    {
      var call := session.FirstCall();
      if call.None? {
        return false;
      }
      Skype.PartnerHandleListed();
      partner := call.value["PARTNER_HANDLE"] == handle;
    }

    /** The block of run: a message is handed to handle_command exactly when it comes from
        the active call partner; otherwise the block ends with `next`. */
    method Block(chat: string, message: Skype.Entity) returns (handled: bool)
      requires "FROM_HANDLE" in message && "BODY" in message
      modifies this`rows, this`outbox, camera, session
      ensures handled <==> PartnerIs(session, |old(session.sent)|, message["FROM_HANDLE"])
      ensures handled ==> Answered(chat, Respond(limits, old(rows), old(camera.Position()),
                                                 ParseCommand(BodyText(message["BODY"])), BodyText(message["BODY"])))
      ensures !handled ==> rows == old(rows) && outbox == old(outbox) && unchanged(camera)
      ensures |session.sent| > |old(session.sent)| && session.sent[|old(session.sent)|] == Skype.SearchCallsCommand
      ensures old(session.sent) <= session.sent
      ensures Skype.CacheAnswered(old(session.cache), session.cache, session.sent, |old(session.sent)|, session.remote)
    {
      handled := IsActiveCallPartner(message["FROM_HANDLE"]);
      if handled {
        HandleCommand(chat, BodyText(message["BODY"]));
      }
    }

    /** The block as the message loop sees it: one reply to the chat exactly when the sender
        is the active call partner, and no change to the table, the replies or the camera
        otherwise. */
    method BlockReplies(chat: string, message: Skype.Entity) returns (handled: bool)
      requires "FROM_HANDLE" in message && "BODY" in message
      modifies this`rows, this`outbox, camera, session
      ensures handled <==> PartnerIs(session, |old(session.sent)|, message["FROM_HANDLE"])
      ensures handled ==> exists answer :: outbox == old(outbox) + [(chat, answer)]
      ensures !handled ==> rows == old(rows) && outbox == old(outbox) && unchanged(camera)
      ensures |session.sent| > |old(session.sent)| && session.sent[|old(session.sent)|] == Skype.SearchCallsCommand
      ensures old(session.sent) <= session.sent
      ensures Skype.CacheAnswered(old(session.cache), session.cache, session.sent, |old(session.sent)|, session.remote)
    {
      handled := Block(chat, message);
    }

    /** One unread message id through each_unread_chatmessage with run's block: the STATUS
        check, then for a RECEIVED message the block, and SET ... SEEN last, whether or not
        the block acted on it. */
    method RunMessage(chat: string, id: string) returns (segment: seq<Skype.UnreadEvent>)
      modifies this`rows, this`outbox, camera, session
      ensures Skype.Segment(segment) && Skype.CheckedIds(segment) == [id]
      ensures Skype.StatusesAnswered(segment, old(session.cache), session.sent, |old(session.sent)|, session.remote)
      ensures old(session.sent) <= session.sent && Skype.MarksIn(segment, session.sent[|old(session.sent)|..])
      ensures old(outbox) <= outbox && ReplyChats(outbox[|old(outbox)|..]) == HandledChats(segment)
      ensures Skype.CacheAnswered(old(session.cache), session.cache, session.sent, |old(session.sent)|, session.remote)
      ensures segment[0] == Skype.Checked(id, old(session.StatusNow(id)))
    {
      var status, message := session.CheckUnread(id);
      if message.None? {
        segment := [Skype.Checked(id, status)];
        Skype.UnreadSegment(id, status, old(session.sent), session.sent, old(session.cache), session.remote);
        assert outbox[|old(outbox)|..] == [];
        assert HandledChats(segment) == HandledChats([]) + [];
        return;
      }
      ghost var middle, cacheMiddle := session.sent, session.cache;
      segment := RunReceivedSegment(chat, id, message.value, status);
      Skype.CacheAnsweredWiden(old(session.cache), cacheMiddle, middle, session.sent,
                               |old(session.sent)|, |old(session.sent)|, session.remote);
      Skype.CacheAnsweredTrans(old(session.cache), cacheMiddle, session.cache, session.sent, session.sent,
                               |old(session.sent)|, |middle|, session.remote);
      Skype.StatusAnsweredWiden(old(session.cache), old(session.cache), middle, session.sent,
                                |old(session.sent)|, |old(session.sent)|, session.remote, id, status);
      Skype.OneCheck(segment, old(session.cache), session.sent, |old(session.sent)|, session.remote);
      assert Skype.MarksIn(segment, session.sent[|old(session.sent)|..]) by {
        Skype.MarksInAppend([], segment, old(session.sent), middle, middle, session.sent);
        assert [] + segment == segment;
      }
    }

    /** RunReceived as the events of a RECEIVED message. */
    method RunReceivedSegment(chat: string, id: string, message: Skype.Entity, status: Option<Skype.Value>)
      returns (segment: seq<Skype.UnreadEvent>)
      requires "FROM_HANDLE" in message && "BODY" in message && status == Skype.Received
      modifies this`rows, this`outbox, camera, session
      ensures Skype.Segment(segment) && Skype.CheckedIds(segment) == [id] && segment[0] == Skype.Checked(id, status)
      ensures forall k :: 1 <= k < |segment| ==> !segment[k].Checked?
      ensures old(session.sent) <= session.sent && Skype.MarksIn(segment, session.sent[|old(session.sent)|..])
      ensures old(outbox) <= outbox && ReplyChats(outbox[|old(outbox)|..]) == HandledChats(segment)
      ensures Skype.CacheAnswered(old(session.cache), session.cache, session.sent, |old(session.sent)|, session.remote)
    {
      var handled, read := RunReceived(chat, id, message);
      segment := [Skype.Checked(id, status), Skype.Yielded(chat, id, handled), Skype.Marked(id, read)];
      Skype.ReceivedSegment(chat, id, handled, read);
      assert session.sent[|old(session.sent)|..][|session.sent| - 1 - |old(session.sent)|] == Skype.SeenCommand(id);
      HandledOne(segment, chat, handled);
      RepliedOne(old(outbox), outbox, chat, handled);
    }

    /** A RECEIVED message: the block, whose partner check sends SEARCH ACTIVECALLS first, then
        SET ... SEEN as the last command, whatever the block did. */
    method RunReceived(chat: string, id: string, message: Skype.Entity) returns (handled: bool, read: bool)
      requires "FROM_HANDLE" in message && "BODY" in message
      modifies this`rows, this`outbox, camera, session
      ensures handled <==> PartnerIs(session, |old(session.sent)|, message["FROM_HANDLE"])
      ensures handled ==> exists answer :: outbox == old(outbox) + [(chat, answer)]
      ensures !handled ==> outbox == old(outbox)
      ensures old(session.sent) <= session.sent && |session.sent| > |old(session.sent)| + 1
      ensures session.sent[|old(session.sent)|] == Skype.SearchCallsCommand
      ensures session.sent[|session.sent| - 1] == Skype.SeenCommand(id)
      ensures Skype.CacheAnswered(old(session.cache), session.cache, session.sent, |old(session.sent)|, session.remote)
    {
      handled := BlockReplies(chat, message);
      ghost var blocked := session.sent;
      read := session.ApiSetChatmessageRead(id);
      Skype.CacheAnsweredWiden(old(session.cache), session.cache, blocked, session.sent,
                               |old(session.sent)|, |old(session.sent)|, session.remote);
    }

    /** One chat's recent messages, in order, through the block of run: every id is checked. */
    method RunChat(chat: string, ids: seq<string>) returns (trace: seq<Skype.UnreadEvent>)
      modifies this`rows, this`outbox, camera, session
      ensures Skype.UnreadTrace(trace) && Skype.CheckedIds(trace) == ids
      ensures Skype.StatusesAnswered(trace, old(session.cache), session.sent, |old(session.sent)|, session.remote)
      ensures old(session.sent) <= session.sent && Skype.MarksIn(trace, session.sent[|old(session.sent)|..])
      ensures old(outbox) <= outbox && ReplyChats(outbox[|old(outbox)|..]) == HandledChats(trace)
      ensures Skype.CacheAnswered(old(session.cache), session.cache, session.sent, |old(session.sent)|, session.remote)
    {
      trace := [];
      var m := 0;
      while m < |ids|
        invariant 0 <= m <= |ids|
        invariant Skype.UnreadTrace(trace) && Skype.CheckedIds(trace) == ids[..m]
        invariant Skype.StatusesAnswered(trace, old(session.cache), session.sent, |old(session.sent)|, session.remote)
        invariant Skype.CacheAnswered(old(session.cache), session.cache, session.sent, |old(session.sent)|, session.remote)
        invariant old(session.sent) <= session.sent && Skype.MarksIn(trace, session.sent[|old(session.sent)|..])
        invariant old(outbox) <= outbox && ReplyChats(outbox[|old(outbox)|..]) == HandledChats(trace)
      {
        ghost var sentBefore, cacheBefore, outBefore := session.sent, session.cache, outbox;
        var segment := RunMessage(chat, ids[m]);
        Skype.MarksInAppend(trace, segment, old(session.sent), sentBefore, sentBefore, session.sent);
        Skype.CacheAnsweredWiden(old(session.cache), cacheBefore, sentBefore, session.sent,
                                 |old(session.sent)|, |old(session.sent)|, session.remote);
        Skype.CacheAnsweredTrans(old(session.cache), cacheBefore, session.cache, session.sent, session.sent,
                                 |old(session.sent)|, |sentBefore|, session.remote);
        Skype.StatusesAnsweredAppend(trace, segment, old(session.cache), cacheBefore, sentBefore, session.sent,
                                     |old(session.sent)|, |sentBefore|, session.remote);
        Skype.CheckedIdsStep(ids, m, trace, segment);
        Skype.UnreadTraceExtend(trace, segment);
        Appended(old(outbox), outBefore, outbox, trace, segment);
        trace := trace + segment;
        m := m + 1;
      }
      assert ids[..m] == ids;
    }

    /** run's pass over one chat: its RECENTCHATMESSAGES asked of Skype, and when they parse,
        those messages through the block. */
    method RunChatAt(chatId: string) returns (ids: Option<seq<string>>, segment: seq<Skype.UnreadEvent>, ghost recent: Option<Skype.Value>)
      modifies this`rows, this`outbox, camera, session
      ensures Skype.AnsweredIn(session.sent, |old(session.sent)|, session.remote, Skype.Chat, chatId, Skype.RecentMessages, recent)
      ensures ids == Skype.MessageIds(recent)
      ensures ids.None? ==> segment == [] && outbox == old(outbox)
      ensures ids.Some? ==> Skype.UnreadTrace(segment) && Skype.CheckedIds(segment) == ids.value
      ensures Skype.StatusesAnswered(segment, old(session.cache), session.sent, |old(session.sent)|, session.remote)
      ensures old(session.sent) <= session.sent && Skype.MarksIn(segment, session.sent[|old(session.sent)|..])
      ensures old(outbox) <= outbox && ReplyChats(outbox[|old(outbox)|..]) == HandledChats(segment)
      ensures Skype.CacheAnswered(old(session.cache), session.cache, session.sent, |old(session.sent)|, session.remote)
    {
      var chat := session.ApiGetChat(chatId);
      Skype.RecentMessagesListed();
      recent := chat[Skype.RecentMessages];
      ids := Skype.MessageIds(chat[Skype.RecentMessages]);
      if ids.None? {
        segment := [];
        return;
      }
      ghost var before, cacheBefore := session.sent, session.cache;
      segment := RunChat(chatId, ids.value);
      Skype.AnsweredInWiden(before, session.sent, |old(session.sent)|, |old(session.sent)|, session.remote,
                            Skype.Chat, chatId, Skype.RecentMessages, recent);
      Skype.CacheAnsweredWiden(old(session.cache), cacheBefore, before, session.sent,
                               |old(session.sent)|, |old(session.sent)|, session.remote);
      Skype.CacheAnsweredTrans(old(session.cache), cacheBefore, session.cache, session.sent, session.sent,
                               |old(session.sent)|, |before|, session.remote);
      assert Skype.StatusesAnswered(segment, old(session.cache), session.sent, |old(session.sent)|, session.remote) by {
        Skype.StatusesAnsweredAppend([], segment, old(session.cache), cacheBefore, before, session.sent,
                                     |old(session.sent)|, |before|, session.remote);
        assert [] + segment == segment;
      }
      assert Skype.MarksIn(segment, session.sent[|old(session.sent)|..]) by {
        Skype.MarksInAppend([], segment, old(session.sent), before, before, session.sent);
        assert [] + segment == segment;
      }
    }

    /** RunChatAt as one step of a pass that has walked `chats[..c]` and replied with
        `outbox[|out0|..]`: the pass either takes in the chat's messages or stops there. */
    method RunNext(chatId: string, ghost chats: seq<string>, ghost c: nat, ghost visits: seq<Skype.ChatVisit>,
                   ghost trace: seq<Skype.UnreadEvent>, ghost log0: seq<string>, ghost cache0: map<Skype.Key, Skype.Value>,
                   ghost out0: seq<(string, Answer)>)
      returns (ids: Option<seq<string>>, segment: seq<Skype.UnreadEvent>)
      requires c < |chats| && chatId == chats[c]
      requires Skype.Walking(chats, c, None, false, visits, trace, log0, session.sent, cache0, session.cache, session.remote)
      requires out0 <= outbox && ReplyChats(outbox[|out0|..]) == HandledChats(trace)
      modifies this`rows, this`outbox, camera, session
      ensures ids.Some? ==> Skype.Walking(chats, c + 1, None, false, visits + [Skype.ChatVisit(chatId, ids.value)],
                                          trace + segment, log0, session.sent, cache0, session.cache, session.remote)
      ensures ids.Some? ==> out0 <= outbox && ReplyChats(outbox[|out0|..]) == HandledChats(trace + segment)
      ensures ids.None? ==> Skype.Stopped(chats, None, visits, trace, log0, session.sent, cache0, session.cache, session.remote)
      ensures ids.None? ==> out0 <= outbox && ReplyChats(outbox[|out0|..]) == HandledChats(trace)
      ensures old(session.sent) <= session.sent
    {
      ghost var start, cacheS, outBefore := session.sent, session.cache, outbox;
      ghost var recent;
      ids, segment, recent := RunChatAt(chatId);
      Appended(out0, outBefore, outbox, trace, segment);
      if ids.None? {
        Skype.EndEarly(visits, trace, chats, c, None, false, log0, start, session.sent, cache0, cacheS, session.cache,
                       session.remote, recent);
        assert trace + segment == trace;
      } else {
        Skype.WalkingOn(chats, c, None, false, visits, Skype.ChatVisit(chatId, ids.value), trace, segment,
                        log0, start, session.sent, cache0, cacheS, session.cache, session.remote);
      }
    }

    /** One pass of the loop in run: each_unread_chatmessage, which run calls without a
        handle, so every recent chat is walked in order, with run's block. `completed` is
        false where Ruby raises because a chat's RECENTCHATMESSAGES did not parse; the chats
        before it have then been walked. */
    method RunCycle() returns (trace: seq<Skype.UnreadEvent>, completed: bool, ghost visits: seq<Skype.ChatVisit>)
      modifies this`rows, this`outbox, camera, session
      ensures |session.sent| > |old(session.sent)| && session.sent[|old(session.sent)|] == Skype.SearchChatsCommand
      ensures Skype.VisitedChats(visits) <= session.RecentChats(|old(session.sent)|)
      ensures completed ==> Skype.VisitedChats(visits) == session.RecentChats(|old(session.sent)|)
      ensures !completed ==> Skype.StoppedAt(visits, session.RecentChats(|old(session.sent)|), session.sent,
                                             |old(session.sent)|, session.remote)
      ensures Skype.VisitsAnswered(visits, session.sent, |old(session.sent)|, session.remote)
      ensures Skype.CheckedIds(trace) == Skype.VisitedIds(visits) && Skype.UnreadTrace(trace)
      ensures Skype.StatusesAnswered(trace, old(session.cache), session.sent, |old(session.sent)|, session.remote)
      ensures old(session.sent) <= session.sent && Skype.MarksIn(trace, session.sent[|old(session.sent)|..])
      ensures old(outbox) <= outbox && ReplyChats(outbox[|old(outbox)|..]) == HandledChats(trace)
      ensures Skype.CacheAnswered(old(session.cache), session.cache, session.sent, |old(session.sent)|, session.remote)
    {
      trace, completed, visits := [], true, [];
      var chats := session.ApiSearchRecentchats();
      Skype.WalkingStart(chats, None, false, old(session.sent), session.sent, session.cache, session.remote);
      Skype.WalkedAll(chats);
      var c := 0;
      while c < |chats|
        invariant c <= |chats| && chats == session.RecentChats(|old(session.sent)|)
        invariant |session.sent| > |old(session.sent)| && session.sent[|old(session.sent)|] == Skype.SearchChatsCommand
        invariant Skype.Walking(chats, c, None, false, visits, trace, old(session.sent), session.sent,
                                old(session.cache), session.cache, session.remote)
        invariant old(outbox) <= outbox && ReplyChats(outbox[|old(outbox)|..]) == HandledChats(trace)
      {
        var ids, segment := RunNext(chats[c], chats, c, visits, trace, old(session.sent), old(session.cache), old(outbox));
        if ids.None? {
          completed := false;
          return;
        }
        trace := trace + segment;
        visits := visits + [Skype.ChatVisit(chats[c], ids.value)];
        c := c + 1;
      }
      assert chats[..c] == chats;
    }
  }

  /** Whether `handle` is the active call partner, as active_call_partner? finds it when
      SEARCH ACTIVECALLS is command `n`: there is a first call, and the PARTNER_HANDLE the
      cache holds for it equals the handle (both nil counts as equal). */
  predicate PartnerIs(session: Skype.SkypeEvents, n: nat, handle: Option<Skype.Value>)
    reads session
  {
    var ids := Skype.ParseIdList(Skype.CallsPattern, session.remote(n, Skype.SearchCallsCommand));
    ids != [] && handle == session.Cached(Skype.Key(Skype.Call, ids[0], "PARTNER_HANDLE"))
  }

  lemma HandledOne(segment: seq<Skype.UnreadEvent>, chat: string, handled: bool)
    requires |segment| == 3 && segment[0].Checked? && segment[2].Marked?
    requires segment[1] == Skype.Yielded(chat, segment[1].message, handled)
    ensures HandledChats(segment) == if handled then [chat] else []
  {
    assert segment[..2][..1] == segment[..1] && segment[..1][..0] == [];
    assert HandledChats(segment[..1]) == [];
    assert HandledChats(segment[..2]) == if handled then [chat] else [];
    assert segment[..|segment| - 1] == segment[..2];
  }

  lemma RepliedOne(out0: seq<(string, Answer)>, out1: seq<(string, Answer)>, chat: string, handled: bool)
    requires handled ==> exists reply :: out1 == out0 + [(chat, reply)]
    requires !handled ==> out1 == out0
    ensures out0 <= out1 && ReplyChats(out1[|out0|..]) == if handled then [chat] else []
  {
    if handled {
      var reply :| out1 == out0 + [(chat, reply)];
      assert out1[|out0|..] == [(chat, reply)];
      assert ReplyChats([(chat, reply)]) == ReplyChats([]) + [chat];
    } else {
      assert out1[|out0|..] == [];
    }
  }

  /** What two successive extensions of a sequence added, taken together. */
  lemma PrefixSlices<T>(s0: seq<T>, s1: seq<T>, s2: seq<T>)
    requires s0 <= s1 <= s2
    ensures s2[|s0|..] == s1[|s0|..] + s2[|s1|..]
  {
  }

  /** Replies and handled messages keep step when both grow. */
  lemma Appended(out0: seq<(string, Answer)>, out1: seq<(string, Answer)>, out2: seq<(string, Answer)>,
                 a: seq<Skype.UnreadEvent>, b: seq<Skype.UnreadEvent>)
    requires out0 <= out1 <= out2
    requires ReplyChats(out1[|out0|..]) == HandledChats(a) && ReplyChats(out2[|out1|..]) == HandledChats(b)
    ensures ReplyChats(out2[|out0|..]) == HandledChats(a + b)
  {
    PrefixSlices(out0, out1, out2);
    ReplyChatsAppend(out1[|out0|..], out2[|out1|..]);
    HandledChatsAppend(a, b);
  }

  // ---------------------------------------------------------------------------------------
  // limits_exceeded? as written, with Ruby's mixed String and Integer values

  /** A Ruby value of an option or a captured number: an Integer or a String. */
  datatype RubyVal = RInt(i: int) | RStr(s: string)

  /** String comparison by character codes. */
  function StrLess(a: string, b: string): bool
  {
    if a == [] then b != []
    else if b == [] then false
    else if a[0] != b[0] then a[0] < b[0]
    else StrLess(a[1..], b[1..])
  }

  /** Ruby's `a < b`; None where Ruby raises ArgumentError (a String compared with an Integer). */
  function RubyLess(a: RubyVal, b: RubyVal): Option<bool>
  {
    match (a, b)
    case (RInt(x), RInt(y)) => Some(x < y)
    case (RStr(x), RStr(y)) => Some(StrLess(x, y))
    case _ => None
  }

  /** `"#{v}"`. */
  function Interpolate(v: RubyVal): string
  {
    match v
    case RInt(x) => IntToString(x)
    case RStr(x) => x
  }

  datatype RubyLimits = RubyLimits(panMin: RubyVal, panMax: RubyVal, tiltMin: RubyVal, tiltMax: RubyVal)

  function IntLimits(l: Limits): RubyLimits
  {
    RubyLimits(RInt(l.panMin), RInt(l.panMax), RInt(l.tiltMin), RInt(l.tiltMax))
  }

  /** The result of limits_exceeded? as the method is written: an exception, or its value. */
  datatype Verdict = Raised | Returned(reason: Option<string>)

  function LimitsExceededAsWritten(l: RubyLimits, pan: RubyVal, tilt: RubyVal): Verdict
  {
    match RubyLess(pan, l.panMin)
    case None => Raised
    case Some(true) => Returned(Some("pan < (" + Interpolate(l.panMin) + ")"))
    case Some(false) =>
      match RubyLess(l.panMax, pan)
      case None => Raised
      case Some(true) => Returned(Some("pan > (" + Interpolate(l.panMax) + ")"))
      case Some(false) =>
        match RubyLess(tilt, l.tiltMin)
        case None => Raised
        case Some(true) => Returned(Some("tilt < (" + Interpolate(l.tiltMin) + ")"))
        case Some(false) =>
          match RubyLess(l.tiltMax, tilt)
          case None => Raised
          case Some(true) => Returned(Some("tilt > (" + Interpolate(l.tiltMax) + ")"))
          case Some(false) => Returned(None)
  }

  /** With Integers on both sides the method is the integer check. */
  lemma AsWrittenOnIntegers(l: Limits, pan: int, tilt: int)
    ensures LimitsExceededAsWritten(IntLimits(l), RInt(pan), RInt(tilt)) == Returned(LimitsExceeded(l, pan, tilt))
  {
  }

  /** `!pos 90, 90` passes the captured Strings to pos; against the default Integer limits
      the first comparison raises, although (90, 90) is within them. */
  lemma PosRaisesAsWritten()
    ensures LimitsExceededAsWritten(IntLimits(DefaultLimits), RStr("90"), RStr("90")) == Raised
    ensures LimitsExceeded(DefaultLimits, ToI("90"), ToI("90")).None?
  {
    ToIOfIntToString(90);
    assert IntToString(90) == "90";
  }

  /** With `--limits 60,120,60,120` the limits are Strings: `!pos 100, 90` is refused because
      "100" sorts before "60", and `!go`/`!left` compare Integers with them and raise. */
  lemma StringLimitsAsWritten()
    ensures var l := RubyLimits(RStr("60"), RStr("120"), RStr("60"), RStr("120"));
            && LimitsExceededAsWritten(l, RStr("100"), RStr("90")) == Returned(Some("pan < (60)"))
            && LimitsExceededAsWritten(l, RInt(90), RInt(90)) == Raised
    ensures LimitsExceeded(Limits(60, 120, 60, 120), 100, 90).None?
  {
    assert StrLess("100", "60");
    assert "pan < (" + "60" + ")" == "pan < (60)";
  }
}
