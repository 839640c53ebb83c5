/** The client of Skype's text API (lib/skype_events.rb): every request is one line of text
    and every answer one line back. Answers are parsed with unanchored regular expressions,
    property values are cached per (kind, id, property) except for the volatile ones, and
    unread chat messages are walked chat by chat, each marked read after it was handed out.
    The transport is the function `remote`, applied to the number of commands sent before
    and the command text, so the remote side may answer the same command differently later. */
module Skype {
  import opened Text
  import opened Regex

  datatype Kind = Call | Chat | ChatMessage

  /** A property value after conversion: the raw text, a split list, or epoch seconds. */
  datatype Value = Str(text: string) | Items(items: seq<string>) | Epoch(seconds: int)

  /** A fetched entity: "_id" and one entry per property, None where the answer did not parse. */
  type Entity = map<string, Option<Value>>

  datatype Key = Key(kind: Kind, id: string, property: string)

  const CallProperties: seq<string> :=
    ["STATUS", "TIMESTAMP", "PARTNER_HANDLE", "PARTNER_DISPNAME", "TYPE", "VIDEO_STATUS",
     "FAILUREREASON", "DURATION"]

  /** The call property the head compares with a message's sender. */
  lemma PartnerHandleListed()
    ensures "PARTNER_HANDLE" in CallProperties
  {
    assert CallProperties[2] == "PARTNER_HANDLE";
  }

  const ChatProperties: seq<string> :=
    ["STATUS", "TIMESTAMP", "NAME", "ADDER", "POSTERS", "MEMBERS", "TOPIC",
     "RECENTCHATMESSAGES", "ACTIVEMEMBERS", "FRIENDLYNAME"]

  const ChatmessageProperties: seq<string> :=
    ["STATUS", "TIMESTAMP", "CHATNAME", "FROM_HANDLE", "FROM_DISPNAME", "TYPE", "USERS",
     "LEAVEREASON", "BODY"]

  /** The chat property that lists a chat's recent messages. */
  const RecentMessages := "RECENTCHATMESSAGES"

  lemma RecentMessagesListed()
    ensures RecentMessages in ChatProperties
  {
    assert ChatProperties[7] == RecentMessages;
  }

  /** The message properties the head reads: the sender and the text. */
  lemma SenderAndBodyListed()
    ensures "FROM_HANDLE" in ChatmessageProperties && "BODY" in ChatmessageProperties
  {
    assert ChatmessageProperties[3] == "FROM_HANDLE" && ChatmessageProperties[8] == "BODY";
  }

  function Properties(kind: Kind): seq<string>
  {
    match kind
    case Call => CallProperties
    case Chat => ChatProperties
    case ChatMessage => ChatmessageProperties
  }

  const Received: Option<Value> := Some(Str("RECEIVED"))

  /** The cache policy as one table: whether a cached value of `property` is returned
      without asking Skype. Call STATUS, chat STATUS and chat RECENTCHATMESSAGES are always
      fetched again; a chat message STATUS only when it is not yet READ or SENT. */
  predicate ServedFromCache(kind: Kind, property: string, cached: Value)
  {
    match kind
    case Call => property != "STATUS"
    case Chat => property != "STATUS" && property != "RECENTCHATMESSAGES"
    case ChatMessage => property != "STATUS" || cached == Str("READ") || cached == Str("SENT")
  }

  /** The properties returned from the cache whenever they are in it. */
  predicate AlwaysCached(kind: Kind, property: string)
  {
    match kind
    case Call => property != "STATUS"
    case Chat => property != "STATUS" && property != "RECENTCHATMESSAGES"
    case ChatMessage => property != "STATUS"
  }

  /** The properties Skype is asked for every time. */
  predicate NeverCached(kind: Kind, property: string)
  {
    match kind
    case Call => property == "STATUS"
    case Chat => property == "STATUS" || property == "RECENTCHATMESSAGES"
    case ChatMessage => false
  }

  // ---------------------------------------------------------------------------------------
  // Commands and the grammars of the answers

  const SearchCallsCommand := "SEARCH ACTIVECALLS"
  const SearchChatsCommand := "SEARCH RECENTCHATS"
  const CallsPattern: seq<Tok> := [Lit("CALLS "), Line]
  const ChatsPattern: seq<Tok> := [Lit("CHATS "), Line]

  function KindWord(kind: Kind): string
  {
    match kind
    case Call => "CALL"
    case Chat => "CHAT"
    case ChatMessage => "CHATMESSAGE"
  }

  /** The word that starts an answer about a property: Skype answers a GET CHATMESSAGE
      with MESSAGE. */
  function ReplyTag(kind: Kind): string
  {
    match kind
    case Call => "CALL "
    case Chat => "CHAT "
    case ChatMessage => "MESSAGE "
  }

  function GetCommand(kind: Kind, id: string, property: string): string
  {
    "GET " + KindWord(kind) + " " + id + " " + property
  }

  /** `<TAG> (\S+) (\S+) (.*)`: neither the id nor the property of the answer is compared
      with the request. */
  function PropertyPattern(kind: Kind): seq<Tok>
  {
    [Lit(ReplyTag(kind)), Word, Lit(" "), Word, Lit(" "), Line]
  }

  /** The ids of a SEARCH answer, `(.*)` after the tag split on `,\s*`; [] when the tag is absent. */
  function ParseIdList(p: seq<Tok>, reply: string): seq<string>
  {
    match Search(p, reply)
    case None => []
    case Some(h) => RubySplit(Captured(h, 0), Comma)
  }

  /** The conversion applied to a freshly fetched value. */
  function Convert(kind: Kind, property: string, raw: string): Value
  {
    if property == "TIMESTAMP" then Epoch(ToI(raw))
    else if kind == Chat && property == "RECENTCHATMESSAGES" then Items(RubySplit(raw, Comma))
    else if kind == Chat && (property == "MEMBERS" || property == "ACTIVEMEMBERS") then Items(RubySplit(raw, Space))
    else Str(raw)
  }

  /** The value in an answer to `GET <KIND> <id> <property>`, None when it does not parse. */
  function ParseProperty(kind: Kind, property: string, reply: string): Option<Value>
  {
    match Search(PropertyPattern(kind), reply)
    case None => None
    case Some(h) => Some(Convert(kind, property, Captured(h, 2)))
  }

  const SendPattern: seq<Tok> := [Lit("MESSAGE "), Word, Lit(" STATUS "), Word]
  const ReadPattern: seq<Tok> := [Lit("MESSAGE "), Word, Lit(" STATUS READ")]

  function SendCommand(chat: string, message: string): string
  {
    "CHATMESSAGE " + chat + " " + message
  }

  /** The status in the answer to CHATMESSAGE. */
  function ParseSendStatus(reply: string): Option<string>
  {
    match Search(SendPattern, reply)
    case None => None
    case Some(h) => Some(Captured(h, 1))
  }

  function SeenCommand(message: string): string
  {
    "SET CHATMESSAGE " + message + " SEEN"
  }

  /** Whether an answer to SET CHATMESSAGE ... SEEN confirms that a message is READ. */
  predicate ReadAcknowledged(reply: string)
  {
    Search(ReadPattern, reply).Some?
  }

  /** The message ids of a chat's RECENTCHATMESSAGES; None where Ruby would call `each`
      on nil and raise. */
  function MessageIds(v: Option<Value>): Option<seq<string>>
  {
    match v
    case Some(Items(ids)) => Some(ids)
    case _ => None
  }

  // ---------------------------------------------------------------------------------------
  // What the parsers get back from well-formed answers

  /** A tag followed by one line: the line is captured whole. */
  lemma TagLineMatch(tag: string, j: string)
    requires forall m :: 0 <= m < |j| ==> j[m] != '\n'
    ensures Search([Lit(tag), Line], tag + j) == Some(Hit(0, [j]))
  {
    var p: seq<Tok> := [Lit(tag), Line];
    var s := tag + j;
    assert s[0..|tag|] == tag;
    assert s[|tag|..] == j;
    LineToEnd(p[1..], s, |tag|);
    assert MatchAt(p, s, 0) == Some([j]);
    SearchAtStart(p, s);
  }

  /** `CALLS a, b, c` and `CHATS a, b, c` give back exactly the ids, and a bare tag gives []. */
  lemma IdListRoundTrip(tag: string, ids: seq<string>)
    requires tag == "CALLS " || tag == "CHATS "
    requires forall n :: 0 <= n < |ids| ==> Token(ids[n], Comma)
    ensures ParseIdList([Lit(tag), Line], tag + Join(ids, ", ")) == ids
  {
    CommaListOneLine(ids);
    TagLineMatch(tag, Join(ids, ", "));
  }

  /** Ids joined with ", " make one line that splitting on a comma and blanks takes apart again. */
  lemma CommaListOneLine(ids: seq<string>)
    requires forall n :: 0 <= n < |ids| ==> Token(ids[n], Comma)
    ensures forall m :: 0 <= m < |Join(ids, ", ")| ==> Join(ids, ", ")[m] != '\n'
    ensures RubySplit(Join(ids, ", "), Comma) == ids
  {
    var glue := ", ";
    assert glue[0] == ',' && glue[1] == ' ' && |glue| == 2;
    JoinAvoids(ids, glue, Newline);
    SplitJoin(ids, Comma, glue);
  }

  /** An answer `<TAG> <id> <property> <value>` yields the converted value, whatever id and
      property it names: the id and property of the answer are not checked. */
  lemma PropertyReplyRoundTrip(kind: Kind, property: string, replyId: string, replyProperty: string, raw: string)
    requires Token(replyId, Space) && Token(replyProperty, Space)
    requires forall m :: 0 <= m < |raw| ==> raw[m] != '\n'
    ensures ParseProperty(kind, property, ReplyTag(kind) + replyId + " " + replyProperty + " " + raw)
            == Some(Convert(kind, property, raw))
  {
    PropertyReplySearch(ReplyTag(kind), replyId, replyProperty, raw);
    assert Captured(Hit(0, [replyId, replyProperty, raw]), 2) == raw;
  }

  /** `<tag>(\S+) (\S+) (.*)` finds `<tag><w1> <w2> <raw>` at its start, with the three parts
      as its groups. */
  lemma PropertyReplySearch(tag: string, w1: string, w2: string, raw: string)
    requires Token(w1, Space) && Token(w2, Space)
    requires forall m :: 0 <= m < |raw| ==> raw[m] != '\n'
    ensures Search([Lit(tag), Word, Lit(" "), Word, Lit(" "), Line], tag + w1 + " " + w2 + " " + raw)
            == Some(Hit(0, [w1, w2, raw]))
  {
    var s := tag + w1 + " " + w2 + " " + raw;
    var p := [Lit(tag), Word, Lit(" "), Word, Lit(" "), Line];
    assert MatchAt(p, s, 0) == Some([w1, w2, raw]) by {
      ReplyLayout(tag, w1, w2, raw);
      PropertyMatch(p, s, tag, w1, w2, raw);
    }
    SearchAtStart(p, s);
  }

  /** Where the parts of `<tag><w1> <w2> <raw>` sit. */
  lemma ReplyLayout(tag: string, w1: string, w2: string, raw: string)
    ensures var s := tag + w1 + " " + w2 + " " + raw;
            && |s| == |tag| + |w1| + |w2| + 2 + |raw|
            && s[0..|tag|] == tag
            && s[|tag|..|tag| + |w1|] == w1 && s[|tag| + |w1|] == ' '
            && s[|tag| + |w1| + 1..|tag| + |w1| + 1 + |w2|] == w2 && s[|tag| + |w1| + 1 + |w2|] == ' '
            && s[|tag| + |w1| + |w2| + 2..] == raw
  {
    var t2 := w2 + " " + raw;
    var t1 := w1 + " " + t2;
    var s := tag + t1;
    assert s == tag + w1 + " " + w2 + " " + raw;
    var i1 := |tag|;
    var i2 := i1 + |w1| + 1;
    var i3 := i2 + |w2| + 1;
    assert s[i1..] == t1 && s[i2..] == t2 && s[i3..] == raw;
    assert s[i1..i1 + |w1|] == w1 && s[i1 + |w1|] == ' ';
    assert s[i2..i2 + |w2|] == w2 && s[i2 + |w2|] == ' ';
  }

  lemma PropertyMatch(p: seq<Tok>, s: string, tag: string, w1: string, w2: string, raw: string)
    requires p == [Lit(tag), Word, Lit(" "), Word, Lit(" "), Line]
    requires Token(w1, Space) && Token(w2, Space)
    requires forall m :: 0 <= m < |raw| ==> raw[m] != '\n'
    requires |tag| + |w1| + |w2| + 2 <= |s|
    requires s[0..|tag|] == tag
    requires s[|tag|..|tag| + |w1|] == w1 && s[|tag| + |w1|] == ' '
    requires s[|tag| + |w1| + 1..|tag| + |w1| + 1 + |w2|] == w2 && s[|tag| + |w1| + 1 + |w2|] == ' '
    requires s[|tag| + |w1| + |w2| + 2..] == raw
    ensures MatchAt(p, s, 0) == Some([w1, w2, raw])
  {
    var i1 := |tag|;
    var i2 := i1 + |w1| + 1;
    var i3 := i2 + |w2| + 1;
    assert MatchAt(p[5..], s, i3) == Some([raw]) by {
      assert forall m :: i3 <= m < |s| ==> s[m] == raw[m - i3];
      assert p[5..] == [Line];
      LineToEnd(p[5..], s, i3);
    }
    assert MatchAt(p[3..], s, i2) == Some([w2, raw]) by {
      assert p[3..][2..] == p[5..];
      WordThenBlank(p[3..], s, i2, w2, [raw]);
      assert [w2] + [raw] == [w2, raw];
    }
    assert MatchAt(p[1..], s, i1) == Some([w1, w2, raw]) by {
      assert p[1..][2..] == p[3..];
      WordThenBlank(p[1..], s, i1, w1, [w2, raw]);
      assert [w1] + [w2, raw] == [w1, w2, raw];
    }
    LitStep(p, tag, s, 0);
  }

  /** RECENTCHATMESSAGES, MEMBERS and TIMESTAMP convert back to what the remote side joined or
      printed. */
  lemma ConversionsRoundTrip(ids: seq<string>, members: seq<string>, seconds: int, kind: Kind)
    requires forall n :: 0 <= n < |ids| ==> Token(ids[n], Comma)
    requires forall n :: 0 <= n < |members| ==> Token(members[n], Space)
    ensures Convert(Chat, "RECENTCHATMESSAGES", Join(ids, ", ")) == Items(ids)
    ensures Convert(Chat, "MEMBERS", Join(members, " ")) == Items(members)
    ensures Convert(Chat, "ACTIVEMEMBERS", Join(members, " ")) == Items(members)
    ensures Convert(kind, "TIMESTAMP", IntToString(seconds)) == Epoch(seconds)
  {
    SplitJoin(ids, Comma, ", ");
    SplitJoin(members, Space, " ");
    ToIOfIntToString(seconds);
  }

  /** SET CHATMESSAGE ... SEEN succeeds on an answer about any message at all. */
  lemma ReadAcknowledgedForAnyMessage(otherMessage: string)
    requires Token(otherMessage, Space)
    ensures ReadAcknowledged("MESSAGE " + otherMessage + " STATUS READ")
  {
    var p := ReadPattern;
    var s := "MESSAGE " + otherMessage + " STATUS READ";
    var j := 8 + |otherMessage|;
    assert s[0..8] == "MESSAGE ";
    assert forall m :: 8 <= m < j ==> s[m] == otherMessage[m - 8];
    assert s[j..j + 12] == " STATUS READ";
    assert MatchAt(p[2..], s, j) == Some([]);
    WordThen(p[1..], s, 8, j);
    assert MatchAt(p, s, 0).Some?;
  }

  /** An answer `MESSAGE <id> STATUS <status>` to CHATMESSAGE yields the status word, which
      ends at the first blank after it. */
  lemma SendStatusRoundTrip(id: string, status: string, rest: string)
    requires Token(id, Space) && Token(status, Space)
    requires rest == [] || InClass(rest[0], Space)
    ensures ParseSendStatus("MESSAGE " + id + " STATUS " + status + rest) == Some(status)
  {
    var p := SendPattern;
    var s := "MESSAGE " + id + " STATUS " + status + rest;
    var i1 := 8;
    var i2 := i1 + |id|;
    var i3 := i2 + 8;
    var j := i3 + |status|;
    assert s[0..8] == "MESSAGE ";
    assert s[i2..i3] == " STATUS ";
    assert MatchAt(p[3..], s, i3) == Some([status]) by {
      assert s[i3..j] == status;
      WordInText(s, i3, status);
      assert j == |s| || s[j] == rest[0];
      WordThen(p[3..], s, i3, j);
      assert p[3..][1..] == [];
      assert MatchAt(p[3..][1..], s, j) == Some([]);
      assert [s[i3..j]] + [] == [status];
    }
    assert MatchAt(p[1..], s, i1) == Some([id, status]) by {
      assert s[i1..i2] == id;
      WordInText(s, i1, id);
      assert MatchAt(p[1..][1..], s, i2) == Some([status]) by {
        LitStep(p[2..], " STATUS ", s, i2);
        assert p[1..][1..] == p[2..] && p[2..][1..] == p[3..];
      }
      WordThen(p[1..], s, i1, i2);
      assert [id] + [status] == [id, status];
    }
    LitStep(p, "MESSAGE ", s, 0);
    SearchAtStart(p, s);
    assert Captured(Hit(0, [id, status]), 1) == status;
  }

  // ---------------------------------------------------------------------------------------
  // Chat ids and the handle filter of each_unread_chatmessage

  /** The characters a Skype handle is made of. */
  predicate HandleChar(c: char)
  {
    'a' <= c <= 'z' || 'A' <= c <= 'Z' || '0' <= c <= '9' || c == '.' || c == '_' || c == '-' || c == ','
  }

  predicate SkypeHandle(h: string)
  {
    forall m :: 0 <= m < |h| ==> HandleChar(h[m])
  }

  /** The handle is spliced into a regular expression unescaped, so its '.' matches any
      character but a newline; its other characters stand for themselves. */
  predicate HandleCharMatches(pc: char, c: char)
  {
    if pc == '.' then c != '\n' else pc == c
  }

  /** `#<handle>/` matches at `i`. */
  predicate HandleAt(h: string, s: string, i: nat)
  {
    i + |h| + 2 <= |s| && s[i] == '#' && s[i + |h| + 1] == '/'
    && forall m :: 0 <= m < |h| ==> HandleCharMatches(h[m], s[i + 1 + m])
  }

  predicate HandleMatches(h: string, chatId: string)
  {
    exists i: nat :: i <= |chatId| && HandleAt(h, chatId, i)
  }

  /** Whether a chat is walked: every chat when no handle is given. */
  predicate InChatWith(fromHandle: Option<string>, chatId: string)
  {
    fromHandle.None? || HandleMatches(fromHandle.value, chatId)
  }

  /** A chat whose id holds `#<handle>/` is walked. */
  lemma ChatIdWithHandle(h: string, before: string, after: string)
    ensures InChatWith(Some(h), before + "#" + h + "/" + after)
  {
    var s := before + "#" + h + "/" + after;
    var i := |before|;
    assert forall m :: 0 <= m < |h| ==> s[i + 1 + m] == h[m];
    assert HandleAt(h, s, i);
  }

  /** The unescaped '.' lets `a.b` through in a chat with `axb`. */
  lemma HandleDotIsWildcard()
    ensures SkypeHandle("a.b") && InChatWith(Some("a.b"), "#axb/$c;1")
  {
    assert HandleAt("a.b", "#axb/$c;1", 0);
  }

  // ---------------------------------------------------------------------------------------
  // The event trace of each_unread_chatmessage

  /** What one pass over unread messages does, in order: a STATUS check, and for a message
      found RECEIVED the hand-over to the block (`handled` says whether the block acted on
      it) followed by SET ... SEEN (`acknowledged` is its result). */
  datatype UnreadEvent =
    | Checked(message: string, status: Option<Value>)
    | Yielded(chat: string, message: string, handled: bool)
    | Marked(message: string, acknowledged: bool)

  /** The events for one message id. */
  predicate Segment(seg: seq<UnreadEvent>)
  {
    || (|seg| == 1 && seg[0].Checked? && seg[0].status != Received)
    || (|seg| == 3 && seg[0] == Checked(seg[0].message, Received)
        && seg[1].Yielded? && seg[1].message == seg[0].message
        && seg[2].Marked? && seg[2].message == seg[0].message)
  }

  /** A sequence of segments, read from the end. */
  predicate UnreadTrace(ev: seq<UnreadEvent>)
    decreases |ev|
  {
    if ev == [] then true
    else
      var n := |ev|;
      match ev[n - 1]
      case Checked(_, status) => status != Received && UnreadTrace(ev[..n - 1])
      case Yielded(_, _, _) => false
      case Marked(m, _) =>
        n >= 3 && ev[n - 3] == Checked(m, Received) && ev[n - 2].Yielded? && ev[n - 2].message == m
        && UnreadTrace(ev[..n - 3])
  }

  lemma UnreadTraceExtend(ev: seq<UnreadEvent>, seg: seq<UnreadEvent>)
    requires UnreadTrace(ev) && Segment(seg)
    ensures UnreadTrace(ev + seg)
  {
    var t := ev + seg;
    assert t[..|ev|] == ev;
  }

  /** A message is handed to the block only right after its STATUS was found RECEIVED, and
      it is marked read right after the block returns. */
  lemma {:induction false} YieldBetweenCheckAndMark(ev: seq<UnreadEvent>, j: nat)
    requires UnreadTrace(ev) && j < |ev| && ev[j].Yielded?
    ensures 1 <= j && ev[j - 1] == Checked(ev[j].message, Received)
    ensures j + 1 < |ev| && ev[j + 1].Marked? && ev[j + 1].message == ev[j].message
    decreases |ev|
  {
    var n := |ev|;
    if ev[n - 1].Checked? {
      assert ev[..n - 1][j] == ev[j];
      YieldBetweenCheckAndMark(ev[..n - 1], j);
    } else if j < n - 3 {
      assert ev[..n - 3][j] == ev[j];
      YieldBetweenCheckAndMark(ev[..n - 3], j);
    }
  }

  /** Nothing is marked read that was not handed to the block just before. */
  lemma {:induction false} MarkFollowsYield(ev: seq<UnreadEvent>, j: nat)
    requires UnreadTrace(ev) && j < |ev| && ev[j].Marked?
    ensures 1 <= j && ev[j - 1].Yielded? && ev[j - 1].message == ev[j].message
    decreases |ev|
  {
    var n := |ev|;
    if ev[n - 1].Checked? {
      assert ev[..n - 1][j] == ev[j];
      MarkFollowsYield(ev[..n - 1], j);
    } else if j < n - 3 {
      assert ev[..n - 3][j] == ev[j];
      MarkFollowsYield(ev[..n - 3], j);
    }
  }

  /** Every message found RECEIVED is handed to the block right after the check, and marked
      read right after the block returns. */
  lemma {:induction false} ReceivedIsYielded(ev: seq<UnreadEvent>, j: nat)
    requires UnreadTrace(ev) && j < |ev| && ev[j].Checked? && ev[j].status == Received
    ensures j + 2 < |ev| && ev[j + 1].Yielded? && ev[j + 1].message == ev[j].message
    ensures ev[j + 2].Marked? && ev[j + 2].message == ev[j].message
    decreases |ev|
  {
    var n := |ev|;
    if ev[n - 1].Checked? {
      assert ev[..n - 1][j] == ev[j];
      ReceivedIsYielded(ev[..n - 1], j);
    } else if j < n - 3 {
      assert ev[..n - 3][j] == ev[j];
      ReceivedIsYielded(ev[..n - 3], j);
    }
  }

  /** The message ids whose STATUS was checked, in order. */
  function CheckedIds(ev: seq<UnreadEvent>): seq<string>
  {
    if ev == [] then []
    else CheckedIds(ev[..|ev| - 1]) + (if ev[|ev| - 1].Checked? then [ev[|ev| - 1].message] else [])
  }

  /** The ids checked in one segment of a RECEIVED message. */
  lemma ReceivedIds(c: UnreadEvent, y: UnreadEvent, m: UnreadEvent)
    requires c.Checked? && y.Yielded? && m.Marked?
    ensures CheckedIds([c, y, m]) == [c.message]
  {
    assert [c, y, m][..2] == [c, y];
    assert [c, y][..1] == [c];
    assert [c][..0] == [];
    assert CheckedIds([c]) == [c.message];
    assert CheckedIds([c, y]) == [c.message];
  }

  lemma {:induction false} CheckedIdsAppend(a: seq<UnreadEvent>, b: seq<UnreadEvent>)
    ensures CheckedIds(a + b) == CheckedIds(a) + CheckedIds(b)
    decreases |b|
  {
    if b != [] {
      var b' := b[..|b| - 1];
      assert (a + b)[..|a + b| - 1] == a + b';
      CheckedIdsAppend(a, b');
    } else {
      assert a + b == a;
    }
  }

  /** A non-empty trace ends with a whole segment. */
  lemma LastSegment(ev: seq<UnreadEvent>) returns (k: nat)
    requires UnreadTrace(ev) && ev != []
    ensures k < |ev| && UnreadTrace(ev[..k]) && Segment(ev[k..])
  {
    var n := |ev|;
    if ev[n - 1].Checked? {
      k := n - 1;
    } else {
      k := n - 3;
    }
  }

  lemma ConcatSplit<T>(a: seq<T>, b: seq<T>, k: nat)
    requires k <= |b|
    ensures a + b == (a + b[..k]) + b[k..]
  {
  }

  /** Passes over several chats run one after another still form a trace. */
  lemma {:induction false} UnreadTraceAppend(a: seq<UnreadEvent>, b: seq<UnreadEvent>)
    requires UnreadTrace(a) && UnreadTrace(b)
    ensures UnreadTrace(a + b)
    decreases |b|
  {
    if b == [] {
      assert a + b == a;
    } else {
      var k := LastSegment(b);
      var front, last := b[..k], b[k..];
      UnreadTraceAppend(a, front);
      ConcatSplit(a, b, k);
      UnreadTraceExtend(a + front, last);
    }
  }

  /** Every message marked read in `ev` had its SET ... SEEN sent, somewhere in `log`. */
  predicate MarksIn(ev: seq<UnreadEvent>, log: seq<string>)
  {
    forall k :: 0 <= k < |ev| && ev[k].Marked? ==> SeenCommand(ev[k].message) in log
  }

  lemma MarksInAppend(a: seq<UnreadEvent>, b: seq<UnreadEvent>, log0: seq<string>, mid0: seq<string>, mid: seq<string>, log: seq<string>)
    requires log0 <= mid0 <= mid <= log
    requires MarksIn(a, mid0[|log0|..]) && MarksIn(b, log[|mid|..])
    ensures MarksIn(a + b, log[|log0|..])
  {
    assert log[|log0|..] == mid0[|log0|..] + mid[|mid0|..] + log[|mid|..];
  }

  /** The ids checked so far grow by the one just visited. */
  lemma CheckedIdsStep(ids: seq<string>, m: nat, trace: seq<UnreadEvent>, segment: seq<UnreadEvent>)
    requires m < |ids| && CheckedIds(trace) == ids[..m] && CheckedIds(segment) == [ids[m]]
    ensures CheckedIds(trace + segment) == ids[..m + 1]
  {
    CheckedIdsAppend(trace, segment);
    assert ids[..m + 1] == ids[..m] + [ids[m]];
  }

  /** Messages handed over from one chat stay so when a segment from the same chat follows. */
  lemma YieldedFromStep(chatId: string, trace: seq<UnreadEvent>, segment: seq<UnreadEvent>)
    requires forall k :: 0 <= k < |trace| && trace[k].Yielded? ==> trace[k].chat == chatId && !trace[k].handled
    requires forall k :: 0 <= k < |segment| && segment[k].Yielded? ==> segment[k].chat == chatId && !segment[k].handled
    ensures forall k :: 0 <= k < |trace + segment| && (trace + segment)[k].Yielded? ==>
              (trace + segment)[k].chat == chatId && !(trace + segment)[k].handled
  {
    forall k | 0 <= k < |trace + segment| && (trace + segment)[k].Yielded?
      ensures (trace + segment)[k].chat == chatId && !(trace + segment)[k].handled
    {
      if k >= |trace| {
        assert (trace + segment)[k] == segment[k - |trace|];
      }
    }
  }

  /** Every message handed over in `ev` comes from a chat with `fromHandle`, and the block
      did nothing with it. */
  predicate YieldsUnhandled(ev: seq<UnreadEvent>, fromHandle: Option<string>)
  {
    forall k :: 0 <= k < |ev| && ev[k].Yielded? ==> InChatWith(fromHandle, ev[k].chat) && !ev[k].handled
  }

  lemma YieldsAppend(a: seq<UnreadEvent>, b: seq<UnreadEvent>, fromHandle: Option<string>, chat: string)
    requires YieldsUnhandled(a, fromHandle) && InChatWith(fromHandle, chat)
    requires forall k :: 0 <= k < |b| && b[k].Yielded? ==> b[k].chat == chat && !b[k].handled
    ensures YieldsUnhandled(a + b, fromHandle)
  {
  }

  // ---------------------------------------------------------------------------------------
  // What Skype answered during a pass

  /** Among the commands `log[from..]` is `GET <kind> <id> <property>`, and Skype's answer to
      it parses to `value`. */
  predicate AnsweredIn(log: seq<string>, from: nat, remote: (nat, string) -> string,
                       kind: Kind, id: string, property: string, value: Option<Value>)
  {
    exists n :: from <= n < |log| && log[n] == GetCommand(kind, id, property)
                && value == ParseProperty(kind, property, remote(n, log[n]))
  }

  /** An answer stays in the log as the log grows, and in any part of it that contains it. */
  lemma AnsweredInWiden(log: seq<string>, log2: seq<string>, from2: nat, from: nat, remote: (nat, string) -> string,
                        kind: Kind, id: string, property: string, value: Option<Value>)
    requires log <= log2 && from <= from2
    requires AnsweredIn(log, from2, remote, kind, id, property, value)
    ensures AnsweredIn(log2, from, remote, kind, id, property, value)
  {
    var n :| from2 <= n < |log| && log[n] == GetCommand(kind, id, property)
             && value == ParseProperty(kind, property, remote(n, log[n]));
    assert log2[n] == log[n];
  }

  /** Every value that `cache` holds and `cache0` did not hold was parsed from Skype's answer
      to a GET of its key among `log[from..]`: get_property is the only writer of the cache. */
  ghost predicate CacheAnswered(cache0: map<Key, Value>, cache: map<Key, Value>, log: seq<string>, from: nat,
                                remote: (nat, string) -> string)
  {
    forall key :: key in cache && (key !in cache0 || cache0[key] != cache[key]) ==>
      AnsweredIn(log, from, remote, key.kind, key.id, key.property, Some(cache[key]))
  }

  /** Answers that explain the cache stay in the log as it grows. */
  lemma CacheAnsweredWiden(cache0: map<Key, Value>, cache: map<Key, Value>, log: seq<string>, log2: seq<string>,
                           from2: nat, from: nat, remote: (nat, string) -> string)
    requires log <= log2 && from <= from2
    requires CacheAnswered(cache0, cache, log, from2, remote)
    ensures CacheAnswered(cache0, cache, log2, from, remote)
  {
    forall key | key in cache && (key !in cache0 || cache0[key] != cache[key])
      ensures AnsweredIn(log2, from, remote, key.kind, key.id, key.property, Some(cache[key]))
    {
      AnsweredInWiden(log, log2, from2, from, remote, key.kind, key.id, key.property, Some(cache[key]));
    }
  }

  /** Two stretches of commands one after the other: every value cached by either was answered
      in the log of both. */
  lemma CacheAnsweredTrans(c0: map<Key, Value>, c1: map<Key, Value>, c2: map<Key, Value>, log1: seq<string>,
                           log2: seq<string>, from: nat, from1: nat, remote: (nat, string) -> string)
    requires log1 <= log2 && from <= from1
    requires CacheAnswered(c0, c1, log1, from, remote) && CacheAnswered(c1, c2, log2, from1, remote)
    ensures CacheAnswered(c0, c2, log2, from, remote)
  {
    forall key | key in c2 && (key !in c0 || c0[key] != c2[key])
      ensures AnsweredIn(log2, from, remote, key.kind, key.id, key.property, Some(c2[key]))
    {
      if key in c1 && c1[key] == c2[key] {
        AnsweredInWiden(log1, log2, from, from, remote, key.kind, key.id, key.property, Some(c2[key]));
      } else {
        AnsweredInWiden(log2, log2, from1, from, remote, key.kind, key.id, key.property, Some(c2[key]));
      }
    }
  }

  /** A STATUS that api_get_chatmessage_unread? compared: a READ or SENT that `cache0`, the
      cache when the pass began, already held, or Skype's answer to a GET for it among
      `log[from..]`. */
  predicate StatusAnswered(cache0: map<Key, Value>, log: seq<string>, from: nat, remote: (nat, string) -> string,
                           message: string, status: Option<Value>)
  {
    var key := Key(ChatMessage, message, "STATUS");
    || (key in cache0 && cache0[key] in {Str("READ"), Str("SENT")} && status == Some(cache0[key]))
    || AnsweredIn(log, from, remote, ChatMessage, message, "STATUS", status)
  }

  /** Every STATUS checked in `ev` was answered so. */
  predicate StatusesAnswered(ev: seq<UnreadEvent>, cache0: map<Key, Value>, log: seq<string>, from: nat,
                             remote: (nat, string) -> string)
  {
    forall k :: 0 <= k < |ev| && ev[k].Checked? ==> StatusAnswered(cache0, log, from, remote, ev[k].message, ev[k].status)
  }

  /** A STATUS answered since `cache1` was the cache is answered since the earlier `cache0`,
      when every value cached in between was itself answered. */
  lemma StatusAnsweredWiden(cache0: map<Key, Value>, cache1: map<Key, Value>, log: seq<string>, log2: seq<string>,
                            from2: nat, from: nat, remote: (nat, string) -> string, message: string, status: Option<Value>)
    requires log <= log2 && from <= from2
    requires CacheAnswered(cache0, cache1, log2, from, remote)
    requires StatusAnswered(cache1, log, from2, remote, message, status)
    ensures StatusAnswered(cache0, log2, from, remote, message, status)
  {
    var key := Key(ChatMessage, message, "STATUS");
    if key in cache1 && cache1[key] in {Str("READ"), Str("SENT")} && status == Some(cache1[key]) {
      if !(key in cache0 && cache0[key] == cache1[key]) {
        assert AnsweredIn(log2, from, remote, key.kind, key.id, key.property, Some(cache1[key]));
      }
    } else {
      AnsweredInWiden(log, log2, from2, from, remote, ChatMessage, message, "STATUS", status);
    }
  }

  /** Two passes run one after the other: the statuses of both were answered in the log of both. */
  lemma StatusesAnsweredAppend(a: seq<UnreadEvent>, b: seq<UnreadEvent>, c0: map<Key, Value>, c1: map<Key, Value>,
                               mid: seq<string>, log: seq<string>, from: nat, from2: nat, remote: (nat, string) -> string)
    requires mid <= log && from <= from2
    requires CacheAnswered(c0, c1, log, from, remote)
    requires StatusesAnswered(a, c0, mid, from, remote) && StatusesAnswered(b, c1, log, from2, remote)
    ensures StatusesAnswered(a + b, c0, log, from, remote)
  {
    forall k | 0 <= k < |a + b| && (a + b)[k].Checked?
      ensures StatusAnswered(c0, log, from, remote, (a + b)[k].message, (a + b)[k].status)
    {
      if k < |a| {
        assert (a + b)[k] == a[k];
        StatusAnsweredWiden(c0, c0, mid, log, from, from, remote, a[k].message, a[k].status);
      } else {
        assert (a + b)[k] == b[k - |a|];
        StatusAnsweredWiden(c0, c1, log, log, from2, from, remote, b[k - |a|].message, b[k - |a|].status);
      }
    }
  }

  /** A message is handed to the block only when Skype itself answered RECEIVED to a GET of
      its STATUS during the pass: a RECEIVED status is never taken from the cache. */
  lemma YieldedAfterReceivedAnswer(ev: seq<UnreadEvent>, cache0: map<Key, Value>, log: seq<string>, from: nat,
                                   remote: (nat, string) -> string, j: nat)
    requires UnreadTrace(ev) && StatusesAnswered(ev, cache0, log, from, remote)
    requires j < |ev| && ev[j].Yielded?
    ensures AnsweredIn(log, from, remote, ChatMessage, ev[j].message, "STATUS", Received)
  {
    YieldBetweenCheckAndMark(ev, j);
    assert ev[j - 1].Checked? && ev[j - 1].status == Received;
  }

  /** A chat walked by each_unread_chatmessage, with the message ids of its RECENTCHATMESSAGES. */
  datatype ChatVisit = ChatVisit(chat: string, ids: seq<string>)

  function VisitedChats(vs: seq<ChatVisit>): seq<string>
  {
    if vs == [] then [] else VisitedChats(vs[..|vs| - 1]) + [vs[|vs| - 1].chat]
  }

  /** The message ids of the chats walked, chat after chat. */
  function VisitedIds(vs: seq<ChatVisit>): seq<string>
  {
    if vs == [] then [] else VisitedIds(vs[..|vs| - 1]) + vs[|vs| - 1].ids
  }

  /** Every chat walked had its RECENTCHATMESSAGES asked for among `log[from..]`, and the
      answer listed exactly its message ids. */
  predicate VisitsAnswered(vs: seq<ChatVisit>, log: seq<string>, from: nat, remote: (nat, string) -> string)
  {
    forall k :: 0 <= k < |vs| ==>
      AnsweredIn(log, from, remote, Chat, vs[k].chat, RecentMessages, Some(Items(vs[k].ids)))
  }

  /** The chats of `chats` that each_unread_chatmessage walks, in order. */
  function Walked(chats: seq<string>, fromHandle: Option<string>): seq<string>
  {
    if chats == [] then []
    else Walked(chats[..|chats| - 1], fromHandle)
         + (if InChatWith(fromHandle, chats[|chats| - 1]) then [chats[|chats| - 1]] else [])
  }

  /** The chats walked before a pass stops are the first of those it would have walked. */
  lemma {:induction false} WalkedPrefix(chats: seq<string>, c: nat, fromHandle: Option<string>)
    requires c <= |chats|
    ensures Walked(chats[..c], fromHandle) <= Walked(chats, fromHandle)
    decreases |chats|
  {
    if c < |chats| {
      var front := chats[..|chats| - 1];
      assert front[..c] == chats[..c];
      WalkedPrefix(front, c, fromHandle);
    } else {
      assert chats[..c] == chats;
    }
  }

  /** Without a handle every chat is walked. */
  lemma {:induction false} WalkedAll(chats: seq<string>)
    ensures Walked(chats, None) == chats
    decreases |chats|
  {
    if chats != [] {
      WalkedAll(chats[..|chats| - 1]);
      assert chats[..|chats| - 1] + [chats[|chats| - 1]] == chats;
    }
  }

  lemma VisitsAnsweredWiden(vs: seq<ChatVisit>, log: seq<string>, log2: seq<string>, from: nat, remote: (nat, string) -> string)
    requires log <= log2 && VisitsAnswered(vs, log, from, remote)
    ensures VisitsAnswered(vs, log2, from, remote)
  {
    forall k | 0 <= k < |vs|
      ensures AnsweredIn(log2, from, remote, Chat, vs[k].chat, RecentMessages, Some(Items(vs[k].ids)))
    {
      AnsweredInWiden(log, log2, from, from, remote, Chat, vs[k].chat, RecentMessages, Some(Items(vs[k].ids)));
    }
  }

  /** One more chat walked: the visit records what its RECENTCHATMESSAGES answer listed. */
  lemma VisitStep(vs: seq<ChatVisit>, v: ChatVisit, trace: seq<UnreadEvent>, segment: seq<UnreadEvent>,
                  mid: seq<string>, log: seq<string>, from: nat, from2: nat, remote: (nat, string) -> string)
    requires mid <= log && from <= from2
    requires VisitsAnswered(vs, mid, from, remote) && CheckedIds(trace) == VisitedIds(vs)
    requires AnsweredIn(log, from2, remote, Chat, v.chat, RecentMessages, Some(Items(v.ids)))
    requires CheckedIds(segment) == v.ids
    ensures VisitsAnswered(vs + [v], log, from, remote)
    ensures CheckedIds(trace + segment) == VisitedIds(vs + [v])
    ensures VisitedChats(vs + [v]) == VisitedChats(vs) + [v.chat]
  {
    var ws := vs + [v];
    assert ws[..|ws| - 1] == vs;
    CheckedIdsAppend(trace, segment);
    VisitsAnsweredWiden(vs, mid, log, from, remote);
    AnsweredInWiden(log, log, from2, from, remote, Chat, v.chat, RecentMessages, Some(Items(v.ids)));
    forall k | 0 <= k < |ws|
      ensures AnsweredIn(log, from, remote, Chat, ws[k].chat, RecentMessages, Some(Items(ws[k].ids)))
    {
      if k < |vs| {
        assert ws[k] == vs[k];
      }
    }
  }

  /** What a fetch of `property` leaves behind: a parsed value is what the cache holds, a
      property the cache always serves is absent from it when the answer did not parse, and
      a property never served from the cache was asked of Skype among `log[from..]`. */
  predicate RecordedOne(kind: Kind, id: string, property: string, value: Option<Value>,
                        cache: map<Key, Value>, log: seq<string>, from: nat, remote: (nat, string) -> string)
  {
    var key := Key(kind, id, property);
    && (value.Some? ==> key in cache && cache[key] == value.value)
    && (value.None? && AlwaysCached(kind, property) ==> key !in cache)
    && (NeverCached(kind, property) ==> AnsweredIn(log, from, remote, kind, id, property, value))
  }

  /** RecordedOne for every property of an entity. */
  predicate Recorded(kind: Kind, id: string, properties: seq<string>, entity: Entity,
                     cache: map<Key, Value>, log: seq<string>, from: nat, remote: (nat, string) -> string)
  {
    forall p :: p in properties ==> p in entity && RecordedOne(kind, id, p, entity[p], cache, log, from, remote)
  }

  /** One more property fetched: what the earlier ones recorded is kept, because the fetch
      touched only its own key and only appended to the log. */
  lemma RecordedStep(kind: Kind, id: string, properties: seq<string>, i: nat, entity: Entity, value: Option<Value>,
                     cache0: map<Key, Value>, cache: map<Key, Value>, log0: seq<string>, log: seq<string>,
                     from: nat, remote: (nat, string) -> string)
    requires i < |properties| && log0 <= log && from <= |log0|
    requires Recorded(kind, id, properties[..i], entity, cache0, log0, from, remote)
    requires RecordedOne(kind, id, properties[i], value, cache, log, |log0|, remote)
    requires forall k :: k != Key(kind, id, properties[i]) ==> (k in cache <==> k in cache0)
    requires forall k :: k in cache0 && k != Key(kind, id, properties[i]) ==> cache[k] == cache0[k]
    ensures Recorded(kind, id, properties[..i + 1], entity[properties[i] := value], cache, log, from, remote)
  {
    var property := properties[i];
    var e := entity[property := value];
    assert properties[..i + 1] == properties[..i] + [property];
    forall p | p in properties[..i + 1]
      ensures p in e && RecordedOne(kind, id, p, e[p], cache, log, from, remote)
    {
      if p == property {
        if NeverCached(kind, p) {
          AnsweredInWiden(log, log, |log0|, from, remote, kind, id, p, value);
        }
      } else {
        assert p in properties[..i];
        if NeverCached(kind, p) {
          AnsweredInWiden(log0, log, from, from, remote, kind, id, p, entity[p]);
        }
      }
    }
  }

  /** What a fetch recorded in part of the log holds in any part that contains it. */
  lemma RecordedWiden(kind: Kind, id: string, properties: seq<string>, entity: Entity, cache: map<Key, Value>,
                      log: seq<string>, from2: nat, from: nat, remote: (nat, string) -> string)
    requires from <= from2 && Recorded(kind, id, properties, entity, cache, log, from2, remote)
    ensures Recorded(kind, id, properties, entity, cache, log, from, remote)
  {
    forall p | p in properties && NeverCached(kind, p)
      ensures AnsweredIn(log, from, remote, kind, id, p, entity[p])
    {
      AnsweredInWiden(log, log, from2, from, remote, kind, id, p, entity[p]);
    }
  }

  /** Whether a pass stopped at the chat after the ones visited: it was to be walked, and its
      RECENTCHATMESSAGES was asked of Skype among `log[from..]` but did not parse. */
  ghost predicate StoppedAt(vs: seq<ChatVisit>, walked: seq<string>, log: seq<string>, from: nat, remote: (nat, string) -> string)
  {
    |VisitedChats(vs)| < |walked|
    && exists v :: MessageIds(v).None?
                   && AnsweredIn(log, from, remote, Chat, walked[|VisitedChats(vs)|], RecentMessages, v)
  }

  /** The chat a pass stops at is the one after those it visited. */
  lemma StopsAt(visits: seq<ChatVisit>, chats: seq<string>, c: nat, fromHandle: Option<string>,
                log: seq<string>, from: nat, from2: nat, remote: (nat, string) -> string, v: Option<Value>)
    requires c < |chats| && InChatWith(fromHandle, chats[c]) && MessageIds(v).None? && from <= from2
    requires VisitedChats(visits) == Walked(chats[..c], fromHandle)
    requires AnsweredIn(log, from2, remote, Chat, chats[c], RecentMessages, v)
    ensures VisitedChats(visits) <= Walked(chats, fromHandle)
    ensures StoppedAt(visits, Walked(chats, fromHandle), log, from, remote)
  {
    NextChat(VisitedChats(visits), chats, c, fromHandle);
    AnsweredInWiden(log, log, from2, from, remote, Chat, chats[c], RecentMessages, v);
  }

  /** The chat walked right after `chats[..c]`, when `chats[c]` is walked at all. */
  lemma NextChat(visited: seq<string>, chats: seq<string>, c: nat, fromHandle: Option<string>)
    requires c < |chats| && InChatWith(fromHandle, chats[c])
    requires visited == Walked(chats[..c], fromHandle)
    ensures visited <= Walked(chats, fromHandle)
    ensures |visited| < |Walked(chats, fromHandle)| && Walked(chats, fromHandle)[|visited|] == chats[c]
  {
    var next := visited + [chats[c]];
    WalkedNext(chats, c, fromHandle);
    WalkedPrefix(chats, c + 1, fromHandle);
    assert next[|visited|] == chats[c];
  }

  /** One more chat walked in full: the pass's trace, visits and log facts extend by it. */
  lemma WalkOn(visits: seq<ChatVisit>, v: ChatVisit, trace: seq<UnreadEvent>, segment: seq<UnreadEvent>,
               log0: seq<string>, start: seq<string>, log: seq<string>,
               cache0: map<Key, Value>, cacheS: map<Key, Value>, cache: map<Key, Value>, remote: (nat, string) -> string)
    requires log0 <= start <= log
    requires VisitsAnswered(visits, start, |log0|, remote) && CheckedIds(trace) == VisitedIds(visits)
    requires CacheAnswered(cache0, cacheS, start, |log0|, remote)
    requires UnreadTrace(trace) && StatusesAnswered(trace, cache0, start, |log0|, remote)
    requires MarksIn(trace, start[|log0|..])
    requires AnsweredIn(log, |start|, remote, Chat, v.chat, RecentMessages, Some(Items(v.ids)))
    requires UnreadTrace(segment) && CheckedIds(segment) == v.ids
    requires CacheAnswered(cacheS, cache, log, |start|, remote)
    requires StatusesAnswered(segment, cacheS, log, |start|, remote) && MarksIn(segment, log[|start|..])
    ensures VisitedChats(visits + [v]) == VisitedChats(visits) + [v.chat]
    ensures VisitsAnswered(visits + [v], log, |log0|, remote) && CheckedIds(trace + segment) == VisitedIds(visits + [v])
    ensures CacheAnswered(cache0, cache, log, |log0|, remote)
    ensures UnreadTrace(trace + segment) && StatusesAnswered(trace + segment, cache0, log, |log0|, remote)
    ensures MarksIn(trace + segment, log[|log0|..])
  {
    VisitStep(visits, v, trace, segment, start, log, |log0|, |start|, remote);
    CacheAnsweredWiden(cache0, cacheS, start, log, |log0|, |log0|, remote);
    CacheAnsweredTrans(cache0, cacheS, cache, log, log, |log0|, |start|, remote);
    StatusesAnsweredAppend(trace, segment, cache0, cacheS, start, log, |log0|, |start|, remote);
    MarksInAppend(trace, segment, log0, start, start, log);
    UnreadTraceAppend(trace, segment);
  }

  /** Walked over one more chat. */
  lemma WalkedNext(chats: seq<string>, c: nat, fromHandle: Option<string>)
    requires c < |chats|
    ensures Walked(chats[..c + 1], fromHandle)
            == Walked(chats[..c], fromHandle) + (if InChatWith(fromHandle, chats[c]) then [chats[c]] else [])
  {
    var s := chats[..c + 1];
    assert s[..|s| - 1] == chats[..c];
  }

  /** What holds of a pass that has walked `chats[..c]`, `log0` being the log before it;
      with the empty block (`quiet`), no message handed over was handled. */
  ghost predicate Walking(chats: seq<string>, c: nat, fromHandle: Option<string>, quiet: bool, visits: seq<ChatVisit>,
                          trace: seq<UnreadEvent>, log0: seq<string>, log: seq<string>,
                          cache0: map<Key, Value>, cache: map<Key, Value>, remote: (nat, string) -> string)
  {
    && c <= |chats| && log0 <= log
    && VisitedChats(visits) == Walked(chats[..c], fromHandle)
    && VisitsAnswered(visits, log, |log0|, remote) && CheckedIds(trace) == VisitedIds(visits)
    && CacheAnswered(cache0, cache, log, |log0|, remote)
    && UnreadTrace(trace) && StatusesAnswered(trace, cache0, log, |log0|, remote)
    && (quiet ==> YieldsUnhandled(trace, fromHandle)) && MarksIn(trace, log[|log0|..])
  }

  lemma WalkingStart(chats: seq<string>, fromHandle: Option<string>, quiet: bool, log0: seq<string>, log: seq<string>,
                     cache: map<Key, Value>, remote: (nat, string) -> string)
    requires log0 <= log
    ensures Walking(chats, 0, fromHandle, quiet, [], [], log0, log, cache, cache, remote)
  {
    assert chats[..0] == [];
  }

  /** A chat that does not name the handle is passed over. */
  lemma WalkingSkip(chats: seq<string>, c: nat, fromHandle: Option<string>, quiet: bool, visits: seq<ChatVisit>,
                    trace: seq<UnreadEvent>, log0: seq<string>, log: seq<string>,
                    cache0: map<Key, Value>, cache: map<Key, Value>, remote: (nat, string) -> string)
    requires c < |chats| && !InChatWith(fromHandle, chats[c])
    requires Walking(chats, c, fromHandle, quiet, visits, trace, log0, log, cache0, cache, remote)
    ensures Walking(chats, c + 1, fromHandle, quiet, visits, trace, log0, log, cache0, cache, remote)
  {
    WalkedNext(chats, c, fromHandle);
  }

  /** A chat walked in full is the next visit. */
  lemma WalkingOn(chats: seq<string>, c: nat, fromHandle: Option<string>, quiet: bool, visits: seq<ChatVisit>, v: ChatVisit,
                  trace: seq<UnreadEvent>, segment: seq<UnreadEvent>,
                  log0: seq<string>, start: seq<string>, log: seq<string>,
                  cache0: map<Key, Value>, cacheS: map<Key, Value>, cache: map<Key, Value>, remote: (nat, string) -> string)
    requires c < |chats| && v.chat == chats[c] && InChatWith(fromHandle, v.chat) && start <= log
    requires Walking(chats, c, fromHandle, quiet, visits, trace, log0, start, cache0, cacheS, remote)
    requires AnsweredIn(log, |start|, remote, Chat, v.chat, RecentMessages, Some(Items(v.ids)))
    requires UnreadTrace(segment) && CheckedIds(segment) == v.ids
    requires CacheAnswered(cacheS, cache, log, |start|, remote)
    requires StatusesAnswered(segment, cacheS, log, |start|, remote) && MarksIn(segment, log[|start|..])
    requires quiet ==> forall k :: 0 <= k < |segment| && segment[k].Yielded? ==> segment[k].chat == v.chat && !segment[k].handled
    ensures Walking(chats, c + 1, fromHandle, quiet, visits + [v], trace + segment, log0, log, cache0, cache, remote)
  {
    WalkOn(visits, v, trace, segment, log0, start, log, cache0, cacheS, cache, remote);
    if quiet {
      YieldsAppend(trace, segment, fromHandle, v.chat);
    }
    WalkedNext(chats, c, fromHandle);
  }

  /** What holds of a pass over `chats` that stopped early, `log0` being the log before it. */
  ghost predicate Stopped(chats: seq<string>, fromHandle: Option<string>, visits: seq<ChatVisit>,
                          trace: seq<UnreadEvent>, log0: seq<string>, log: seq<string>,
                          cache0: map<Key, Value>, cache: map<Key, Value>, remote: (nat, string) -> string)
  {
    && log0 <= log && VisitedChats(visits) <= Walked(chats, fromHandle)
    && StoppedAt(visits, Walked(chats, fromHandle), log, |log0|, remote)
    && VisitsAnswered(visits, log, |log0|, remote) && CacheAnswered(cache0, cache, log, |log0|, remote)
    && StatusesAnswered(trace, cache0, log, |log0|, remote) && MarksIn(trace, log[|log0|..])
  }

  /** The state when a pass stops at the chat `chats[c]`, whose RECENTCHATMESSAGES did not
      parse: what was walked before it still holds in the longer log. */
  lemma EndEarly(visits: seq<ChatVisit>, trace: seq<UnreadEvent>, chats: seq<string>, c: nat, fromHandle: Option<string>, quiet: bool,
                 log0: seq<string>, start: seq<string>, log: seq<string>,
                 cache0: map<Key, Value>, cacheS: map<Key, Value>, cache: map<Key, Value>,
                 remote: (nat, string) -> string, v: Option<Value>)
    requires c < |chats| && InChatWith(fromHandle, chats[c]) && MessageIds(v).None? && start <= log
    requires Walking(chats, c, fromHandle, quiet, visits, trace, log0, start, cache0, cacheS, remote)
    requires AnsweredIn(log, |start|, remote, Chat, chats[c], RecentMessages, v)
    requires CacheAnswered(cacheS, cache, log, |start|, remote)
    ensures Stopped(chats, fromHandle, visits, trace, log0, log, cache0, cache, remote)
  {
    StopsAt(visits, chats, c, fromHandle, log, |log0|, |start|, remote, v);
    VisitsAnsweredWiden(visits, start, log, |log0|, remote);
    CacheAnsweredWiden(cache0, cacheS, start, log, |log0|, |log0|, remote);
    CacheAnsweredTrans(cache0, cacheS, cache, log, log, |log0|, |start|, remote);
    assert StatusesAnswered(trace, cache0, log, |log0|, remote) by {
      StatusesAnsweredAppend(trace, [], cache0, cache0, start, log, |log0|, |log0|, remote);
      assert trace + [] == trace;
    }
    assert MarksIn(trace, log[|log0|..]) by {
      MarksInAppend(trace, [], log0, start, log, log);
      assert trace + [] == trace;
    }
  }

  /** The segment of a RECEIVED message handed to the empty block and then marked read. */
  lemma ReceivedSegment(chatId: string, id: string, handled: bool, read: bool)
    ensures var seg := [Checked(id, Received), Yielded(chatId, id, handled), Marked(id, read)];
            && Segment(seg) && CheckedIds(seg) == [id]
            && (forall k :: 0 <= k < |seg| && seg[k].Yielded? ==> seg[k].chat == chatId && seg[k].handled == handled)
  {
    var seg := [Checked(id, Received), Yielded(chatId, id, handled), Marked(id, read)];
    ReceivedIds(seg[0], seg[1], seg[2]);
  }

  /** That segment's STATUS was answered before the block ran, and its SET ... SEEN is the
      last command in `log`. */
  lemma ReceivedSegmentSent(chatId: string, id: string, handled: bool, read: bool, status: Option<Value>,
                            log0: seq<string>, middle: seq<string>, log: seq<string>, cache0: map<Key, Value>,
                            remote: (nat, string) -> string)
    requires log0 <= middle <= log && |log| > |log0| && log[|log| - 1] == SeenCommand(id)
    requires StatusAnswered(cache0, middle, |log0|, remote, id, status)
    ensures var seg := [Checked(id, status), Yielded(chatId, id, handled), Marked(id, read)];
            StatusesAnswered(seg, cache0, log, |log0|, remote) && log0 <= log && MarksIn(seg, log[|log0|..])
  {
    var seg := [Checked(id, status), Yielded(chatId, id, handled), Marked(id, read)];
    StatusAnsweredWiden(cache0, cache0, middle, log, |log0|, |log0|, remote, id, status);
    OneCheck(seg, cache0, log, |log0|, remote);
    assert log[|log0|..][|log| - 1 - |log0|] == SeenCommand(id);
  }

  /** Events with a single STATUS check, at their head. */
  lemma OneCheck(ev: seq<UnreadEvent>, cache0: map<Key, Value>, log: seq<string>, from: nat, remote: (nat, string) -> string)
    requires |ev| >= 1 && ev[0].Checked? && StatusAnswered(cache0, log, from, remote, ev[0].message, ev[0].status)
    requires forall k :: 1 <= k < |ev| ==> !ev[k].Checked?
    ensures StatusesAnswered(ev, cache0, log, from, remote)
  {
  }

  /** The segment of a message whose STATUS was not RECEIVED. */
  lemma UnreadSegment(id: string, status: Option<Value>, log0: seq<string>, log: seq<string>, cache0: map<Key, Value>,
                      remote: (nat, string) -> string)
    requires status != Received && log0 <= log
    requires StatusAnswered(cache0, log, |log0|, remote, id, status)
    ensures var seg := [Checked(id, status)];
            && Segment(seg) && CheckedIds(seg) == [id]
            && StatusesAnswered(seg, cache0, log, |log0|, remote)
            && MarksIn(seg, log[|log0|..])
  {
    assert [Checked(id, status)][..0] == [];
  }

  // ---------------------------------------------------------------------------------------
  // The session object

  class SkypeEvents {
    /** The Hash `@cache`. */
    var cache: map<Key, Value>
    /** Every command sent so far, oldest first. */
    var sent: seq<string>
    /** The answer of Skype to the n-th command. */
    const remote: (nat, string) -> string

    constructor (remote: (nat, string) -> string)
      ensures cache == map[] && sent == [] && this.remote == remote
    {
      this.remote := remote;
      cache, sent := map[], [];
    }

    /** The chats in Skype's answer to SEARCH RECENTCHATS sent as the n-th command. */
    function RecentChats(n: nat): seq<string>
    {
      ParseIdList(ChatsPattern, remote(n, SearchChatsCommand))
    }

    /** `@cache[key]`: nil when the key is absent. */
    function Cached(key: Key): Option<Value>
      reads this
    {
      if key in cache then Some(cache[key]) else None
    }

    /** The STATUS api_get_chatmessage_unread? would compare now: a cached READ or SENT, or
        else the parse of Skype's answer to the GET it is about to send. */
    function StatusNow(message: string): Option<Value>
      reads this
    {
      var key := Key(ChatMessage, message, "STATUS");
      if key in cache && cache[key] in {Str("READ"), Str("SENT")} then Some(cache[key])
      else ParseProperty(ChatMessage, "STATUS", remote(|sent|, GetCommand(ChatMessage, message, "STATUS")))
    }

    method Command(text: string) returns (reply: string)
      modifies this`sent
      ensures sent == old(sent) + [text] && reply == remote(|old(sent)|, text)
    {
      reply := remote(|sent|, text);
      sent := sent + [text];
    }

    method ApiSearchActivecalls() returns (calls: seq<string>)
      modifies this`sent
      ensures sent == old(sent) + [SearchCallsCommand]
      ensures calls == ParseIdList(CallsPattern, remote(|old(sent)|, SearchCallsCommand))
    {
      var reply := Command(SearchCallsCommand);
      calls := ParseIdList(CallsPattern, reply);
    }

    method ApiSearchRecentchats() returns (chats: seq<string>)
      modifies this`sent
      ensures sent == old(sent) + [SearchChatsCommand]
      ensures chats == ParseIdList(ChatsPattern, remote(|old(sent)|, SearchChatsCommand))
    {
      var reply := Command(SearchChatsCommand);
      chats := ParseIdList(ChatsPattern, reply);
    }

    /** A GET was sent for the key and its parsed answer returned, and cached if it parsed. */
    twostate predicate Fetched(kind: Kind, id: string, property: string, new value: Option<Value>)
      reads this
    {
      var command := GetCommand(kind, id, property);
      && sent == old(sent) + [command]
      && value == ParseProperty(kind, property, remote(|old(sent)|, command))
      && cache == if value.Some? then old(cache)[Key(kind, id, property) := value.value] else old(cache)
    }

    /** The cached value where the table allows it, a fresh GET otherwise. */
    method GetProperty(kind: Kind, id: string, property: string) returns (value: Option<Value>)
      modifies this`cache, this`sent
      ensures var key := Key(kind, id, property);
              if key in old(cache) && ServedFromCache(kind, property, old(cache)[key])
              then value == Some(old(cache)[key]) && cache == old(cache) && sent == old(sent)
              else Fetched(kind, id, property, value)
      ensures CacheAnswered(old(cache), cache, sent, |old(sent)|, remote)
    {
      var key := Key(kind, id, property);
      if key in cache && ServedFromCache(kind, property, cache[key]) {
        return Some(cache[key]);
      }
      var reply := Command(GetCommand(kind, id, property));
      value := ParseProperty(kind, property, reply);
      assert AnsweredIn(sent, |old(sent)|, remote, kind, id, property, value) by {
        assert sent[|old(sent)|] == GetCommand(kind, id, property);
      }
      if value.Some? {
        cache := cache[key := value.value];
      }
    }

    method ApiGetCallProperty(call: string, property: string) returns (value: Option<Value>)
      modifies this`cache, this`sent
      ensures property != "STATUS" && Key(Call, call, property) in old(cache) ==>
                value == Some(old(cache)[Key(Call, call, property)]) && cache == old(cache) && sent == old(sent)
      ensures property == "STATUS" || Key(Call, call, property) !in old(cache) ==>
                Fetched(Call, call, property, value)
      ensures CacheAnswered(old(cache), cache, sent, |old(sent)|, remote)
    {
      value := GetProperty(Call, call, property);
    }

    method ApiGetChatProperty(chat: string, property: string) returns (value: Option<Value>)
      modifies this`cache, this`sent
      ensures property != "STATUS" && property != "RECENTCHATMESSAGES" && Key(Chat, chat, property) in old(cache) ==>
                value == Some(old(cache)[Key(Chat, chat, property)]) && cache == old(cache) && sent == old(sent)
      ensures property == "STATUS" || property == "RECENTCHATMESSAGES" || Key(Chat, chat, property) !in old(cache) ==>
                Fetched(Chat, chat, property, value)
      ensures CacheAnswered(old(cache), cache, sent, |old(sent)|, remote)
    {
      value := GetProperty(Chat, chat, property);
    }

    method ApiGetChatmessageProperty(message: string, property: string) returns (value: Option<Value>)
      modifies this`cache, this`sent
      ensures var key := Key(ChatMessage, message, property);
              key in old(cache) && (property != "STATUS" || old(cache)[key] in {Str("READ"), Str("SENT")}) ==>
                value == Some(old(cache)[key]) && cache == old(cache) && sent == old(sent)
      ensures var key := Key(ChatMessage, message, property);
              key !in old(cache) || (property == "STATUS" && old(cache)[key] !in {Str("READ"), Str("SENT")}) ==>
                Fetched(ChatMessage, message, property, value)
      ensures CacheAnswered(old(cache), cache, sent, |old(sent)|, remote)
    {
      value := GetProperty(ChatMessage, message, property);
    }

    /** GetProperty as the property loop needs it: the fetch is recorded in the cache and
        the log, and no other key is added, removed or changed. */
    method FetchOne(kind: Kind, id: string, property: string) returns (value: Option<Value>)
      modifies this`cache, this`sent
      ensures RecordedOne(kind, id, property, value, cache, sent, |old(sent)|, remote)
      ensures forall k :: k != Key(kind, id, property) ==> (k in cache <==> k in old(cache))
      ensures forall k :: k in old(cache) && k != Key(kind, id, property) ==> cache[k] == old(cache)[k]
      ensures old(sent) <= sent
      ensures CacheAnswered(old(cache), cache, sent, |old(sent)|, remote)
    {
      value := GetProperty(kind, id, property);
      if NeverCached(kind, property) {
        assert sent[|old(sent)|] == GetCommand(kind, id, property);
      }
    }

    /** The inject over a property list: `"_id"` and every listed property, fetched one
        after the other, each recorded in the cache and the log. */
    method FetchProperties(kind: Kind, id: string, properties: seq<string>) returns (entity: Entity)
      requires "_id" !in properties
      modifies this`cache, this`sent
      ensures forall p :: p in entity <==> p == "_id" || p in properties
      ensures entity["_id"] == Some(Str(id))
      ensures Recorded(kind, id, properties, entity, cache, sent, |old(sent)|, remote)
      ensures old(sent) <= sent
      ensures CacheAnswered(old(cache), cache, sent, |old(sent)|, remote)
    {
      entity := map["_id" := Some(Str(id))];
      var i := 0;
      while i < |properties|
        invariant 0 <= i <= |properties|
        invariant forall p :: p in entity <==> p == "_id" || p in properties[..i]
        invariant entity["_id"] == Some(Str(id))
        invariant Recorded(kind, id, properties[..i], entity, cache, sent, |old(sent)|, remote)
        invariant old(sent) <= sent
        invariant CacheAnswered(old(cache), cache, sent, |old(sent)|, remote)
      {
        var property := properties[i];
        ghost var cache0, before := cache, sent;
        var value := FetchOne(kind, id, property);
        CacheAnsweredTrans(old(cache), cache0, cache, before, sent, |old(sent)|, |before|, remote);
        RecordedStep(kind, id, properties, i, entity, value, cache0, cache, before, sent, |old(sent)|, remote);
        entity := entity[property := value];
        assert properties[..i + 1] == properties[..i] + [property];
        i := i + 1;
      }
      assert properties[..i] == properties;
    }

    method ApiGetCall(call: string) returns (entity: Entity)
      modifies this`cache, this`sent
      ensures forall p :: p in entity <==> p == "_id" || p in CallProperties
      ensures entity["_id"] == Some(Str(call))
      ensures Recorded(Call, call, CallProperties, entity, cache, sent, |old(sent)|, remote)
      ensures old(sent) <= sent
      ensures CacheAnswered(old(cache), cache, sent, |old(sent)|, remote)
    {
      entity := FetchProperties(Call, call, CallProperties);
    }

    method ApiGetChat(chat: string) returns (entity: Entity)
      modifies this`cache, this`sent
      ensures forall p :: p in entity <==> p == "_id" || p in ChatProperties
      ensures entity["_id"] == Some(Str(chat))
      ensures Recorded(Chat, chat, ChatProperties, entity, cache, sent, |old(sent)|, remote)
      ensures old(sent) <= sent
      ensures CacheAnswered(old(cache), cache, sent, |old(sent)|, remote)
    {
      entity := FetchProperties(Chat, chat, ChatProperties);
    }

    method ApiGetChatmessage(message: string) returns (entity: Entity)
      modifies this`cache, this`sent
      ensures forall p :: p in entity <==> p == "_id" || p in ChatmessageProperties
      ensures entity["_id"] == Some(Str(message))
      ensures Recorded(ChatMessage, message, ChatmessageProperties, entity, cache, sent, |old(sent)|, remote)
      ensures old(sent) <= sent
      ensures CacheAnswered(old(cache), cache, sent, |old(sent)|, remote)
    {
      entity := FetchProperties(ChatMessage, message, ChatmessageProperties);
    }

    method ApiChatmessage(chat: string, message: string) returns (status: Option<string>)
      modifies this`sent
      ensures sent == old(sent) + [SendCommand(chat, message)]
      ensures status == ParseSendStatus(remote(|old(sent)|, SendCommand(chat, message)))
    {
      var reply := Command(SendCommand(chat, message));
      status := ParseSendStatus(reply);
    }

    /** api_get_chatmessage_unread?; the STATUS it compared is returned beside the answer:
        a cached READ or SENT without asking Skype, otherwise Skype's answer to one GET. */
    method ApiGetChatmessageUnread(message: string) returns (unread: bool, status: Option<Value>)
      modifies this`cache, this`sent
      ensures status == old(StatusNow(message)) && (unread <==> status == Received)
      ensures var key := Key(ChatMessage, message, "STATUS");
              if key in old(cache) && old(cache)[key] in {Str("READ"), Str("SENT")}
              then cache == old(cache) && sent == old(sent)
              else Fetched(ChatMessage, message, "STATUS", status)
      ensures CacheAnswered(old(cache), cache, sent, |old(sent)|, remote)
    {
      status := ApiGetChatmessageProperty(message, "STATUS");
      unread := status == Received;
    }

    method ApiSetChatmessageRead(message: string) returns (read: bool)
      modifies this`sent
      ensures sent == old(sent) + [SeenCommand(message)]
      ensures read <==> ReadAcknowledged(remote(|old(sent)|, SeenCommand(message)))
    {
      var reply := Command(SeenCommand(message));
      read := ReadAcknowledged(reply);
    }

    /** `each_call.first`: the first active call, fetched in full; no other call is fetched.
        Its PARTNER_HANDLE is what the cache then holds for it, nil when nothing is. */
    method FirstCall() returns (call: Option<Entity>)
      modifies this`cache, this`sent
      ensures var ids := ParseIdList(CallsPattern, remote(|old(sent)|, SearchCallsCommand));
              && (call.None? <==> ids == [])
              && (call.None? ==> sent == old(sent) + [SearchCallsCommand] && cache == old(cache))
              && (call.Some? ==> (forall p :: p in call.value <==> p == "_id" || p in CallProperties)
                                 && call.value["_id"] == Some(Str(ids[0]))
                                 && call.value["PARTNER_HANDLE"] == Cached(Key(Call, ids[0], "PARTNER_HANDLE")))
      ensures |sent| > |old(sent)| && sent[|old(sent)|] == SearchCallsCommand
      ensures old(sent) <= sent
      ensures CacheAnswered(old(cache), cache, sent, |old(sent)|, remote)
    {
      var ids := ApiSearchActivecalls();
      if ids == [] {
        return None;
      }
      ghost var searched := sent;
      var entity := ApiGetCall(ids[0]);
      CacheAnsweredWiden(old(cache), cache, sent, sent, |searched|, |old(sent)|, remote);
      call := Some(entity);
      PartnerHandleListed();
      assert AlwaysCached(Call, "PARTNER_HANDLE");
    }

    /** The PARTNER_HANDLE of the first active call: nil without a call, otherwise what the
        cache holds for it. */
    method ActiveCallPartner() returns (partner: Option<Value>)
      modifies this`cache, this`sent
      ensures var ids := ParseIdList(CallsPattern, remote(|old(sent)|, SearchCallsCommand));
              && (ids == [] ==> partner.None? && sent == old(sent) + [SearchCallsCommand] && cache == old(cache))
              && (ids != [] ==> partner == Cached(Key(Call, ids[0], "PARTNER_HANDLE")))
      ensures |sent| > |old(sent)| && sent[|old(sent)|] == SearchCallsCommand
      ensures old(sent) <= sent && CacheAnswered(old(cache), cache, sent, |old(sent)|, remote)
    {
      var call := FirstCall();
      if call.None? {
        return None;
      }
      PartnerHandleListed();
      partner := call.value["PARTNER_HANDLE"];
    }

    /** active_call_partner?: `==` on the partner, so without an active call it holds exactly
        for a handle that is nil. */
    method ActiveCallPartnerIs(handle: Option<Value>) returns (same: bool)
      modifies this`cache, this`sent
      ensures var ids := ParseIdList(CallsPattern, remote(|old(sent)|, SearchCallsCommand));
              && (ids == [] ==> (same <==> handle.None?))
              && (ids != [] ==> (same <==> handle == Cached(Key(Call, ids[0], "PARTNER_HANDLE"))))
      ensures old(sent) <= sent && CacheAnswered(old(cache), cache, sent, |old(sent)|, remote)
    {
      var partner := ActiveCallPartner();
      same := partner == handle;
    }

    /** The part of each_unread_chatmessage before the hand-over, for one message id: its
        STATUS, and the full message exactly when that STATUS is RECEIVED. Nothing but the
        STATUS is asked for a message that is not RECEIVED. */
    method CheckUnread(id: string) returns (status: Option<Value>, message: Option<Entity>)
      modifies this`cache, this`sent
      ensures StatusAnswered(old(cache), sent, |old(sent)|, remote, id, status)
      ensures CacheAnswered(old(cache), cache, sent, |old(sent)|, remote)
      ensures message.Some? ==> (forall p :: p in message.value <==> p == "_id" || p in ChatmessageProperties)
                                && message.value["_id"] == Some(Str(id))
      ensures message.Some? ==> Recorded(ChatMessage, id, ChatmessageProperties, message.value, cache, sent, |old(sent)|, remote)
      ensures message.Some? ==> "FROM_HANDLE" in message.value && "BODY" in message.value
      ensures message.None? ==> sent == old(sent) || sent == old(sent) + [GetCommand(ChatMessage, id, "STATUS")]
      ensures old(sent) <= sent
      ensures message.Some? <==> status == Received
      ensures status == old(StatusNow(id))
    {
      var unread;
      unread, status := ApiGetChatmessageUnread(id);
      assert StatusAnswered(old(cache), sent, |old(sent)|, remote, id, status) by {
        var key := Key(ChatMessage, id, "STATUS");
        if !(key in old(cache) && old(cache)[key] in {Str("READ"), Str("SENT")}) {
          assert sent[|old(sent)|] == GetCommand(ChatMessage, id, "STATUS");
        }
      }
      if unread {
        ghost var checked, cacheChecked := sent, cache;
        var entity := ApiGetChatmessage(id);
        CacheAnsweredWiden(old(cache), cacheChecked, checked, sent, |old(sent)|, |old(sent)|, remote);
        CacheAnsweredTrans(old(cache), cacheChecked, cache, sent, sent, |old(sent)|, |checked|, remote);
        StatusAnsweredWiden(old(cache), old(cache), checked, sent, |old(sent)|, |old(sent)|, remote, id, status);
        RecordedWiden(ChatMessage, id, ChatmessageProperties, entity, cache, sent, |checked|, |old(sent)|, remote);
        SenderAndBodyListed();
        message := Some(entity);
      } else {
        message := None;
      }
    }

    /** One message id of a chat, given the empty block: its STATUS is checked, and when it
        is RECEIVED the message is fetched, handed over and then marked read, the last
        command sent. */
    method VisitMessage(chatId: string, id: string) returns (segment: seq<UnreadEvent>)
      modifies this`cache, this`sent
      ensures Segment(segment) && CheckedIds(segment) == [id]
      ensures StatusesAnswered(segment, old(cache), sent, |old(sent)|, remote) && CacheAnswered(old(cache), cache, sent, |old(sent)|, remote)
      ensures forall k :: 0 <= k < |segment| && segment[k].Yielded? ==> segment[k].chat == chatId && !segment[k].handled
      ensures old(sent) <= sent && MarksIn(segment, sent[|old(sent)|..])
      ensures |segment| == 3 ==> |sent| > |old(sent)| && sent[|sent| - 1] == SeenCommand(id)
      ensures segment[0] == Checked(id, old(StatusNow(id)))
    {
      var status, message := CheckUnread(id);
      if message.Some? {
        // yield chat, message: the block is empty
        ghost var middle := sent;
        var read := ApiSetChatmessageRead(id);
        segment := [Checked(id, status), Yielded(chatId, id, false), Marked(id, read)];
        ReceivedSegment(chatId, id, false, read);
        ReceivedSegmentSent(chatId, id, false, read, status, old(sent), middle, sent, old(cache), remote);
        CacheAnsweredWiden(old(cache), cache, middle, sent, |old(sent)|, |old(sent)|, remote);
      } else {
        segment := [Checked(id, status)];
        UnreadSegment(id, status, old(sent), sent, old(cache), remote);
      }
    }

    /** The recent messages of one chat, in order, given the empty block. */
    method DrainChat(chatId: string, ids: seq<string>) returns (trace: seq<UnreadEvent>)
      modifies this`cache, this`sent
      ensures UnreadTrace(trace) && CheckedIds(trace) == ids
      ensures StatusesAnswered(trace, old(cache), sent, |old(sent)|, remote) && CacheAnswered(old(cache), cache, sent, |old(sent)|, remote)
      ensures forall k :: 0 <= k < |trace| && trace[k].Yielded? ==> trace[k].chat == chatId && !trace[k].handled
      ensures old(sent) <= sent
      ensures MarksIn(trace, sent[|old(sent)|..])
    {
      trace := [];
      var m := 0;
      while m < |ids|
        invariant 0 <= m <= |ids|
        invariant UnreadTrace(trace) && CheckedIds(trace) == ids[..m]
        invariant StatusesAnswered(trace, old(cache), sent, |old(sent)|, remote) && CacheAnswered(old(cache), cache, sent, |old(sent)|, remote)
        invariant forall k :: 0 <= k < |trace| && trace[k].Yielded? ==> trace[k].chat == chatId && !trace[k].handled
        invariant old(sent) <= sent
        invariant MarksIn(trace, sent[|old(sent)|..])
      {
        ghost var before, cacheBefore := sent, cache;
        var segment := VisitMessage(chatId, ids[m]);
        CacheAnsweredWiden(old(cache), cacheBefore, before, sent, |old(sent)|, |old(sent)|, remote);
        CacheAnsweredTrans(old(cache), cacheBefore, cache, sent, sent, |old(sent)|, |before|, remote);
        assert UnreadTrace(trace + segment) by {
          UnreadTraceExtend(trace, segment);
        }
        assert CheckedIds(trace + segment) == ids[..m + 1] by {
          CheckedIdsStep(ids, m, trace, segment);
        }
        assert StatusesAnswered(trace + segment, old(cache), sent, |old(sent)|, remote) by {
          StatusesAnsweredAppend(trace, segment, old(cache), cacheBefore, before, sent, |old(sent)|, |before|, remote);
        }
        YieldedFromStep(chatId, trace, segment);
        assert MarksIn(trace + segment, sent[|old(sent)|..]) by {
          MarksInAppend(trace, segment, old(sent), before, before, sent);
        }
        trace := trace + segment;
        m := m + 1;
      }
      assert ids[..m] == ids;
    }

    /** The body of each_unread_chatmessage for one chat: its RECENTCHATMESSAGES asked of
        Skype, and when they parse, those messages visited by DrainChat. */
    method WalkChat(chatId: string) returns (ids: Option<seq<string>>, segment: seq<UnreadEvent>, ghost recent: Option<Value>)
      modifies this`cache, this`sent
      ensures AnsweredIn(sent, |old(sent)|, remote, Chat, chatId, RecentMessages, recent) && ids == MessageIds(recent)
      ensures ids.None? ==> segment == []
      ensures ids.Some? ==> UnreadTrace(segment) && CheckedIds(segment) == ids.value
      ensures StatusesAnswered(segment, old(cache), sent, |old(sent)|, remote) && MarksIn(segment, sent[|old(sent)|..])
      ensures CacheAnswered(old(cache), cache, sent, |old(sent)|, remote)
      ensures forall k :: 0 <= k < |segment| && segment[k].Yielded? ==> segment[k].chat == chatId && !segment[k].handled
      ensures old(sent) <= sent
    {
      var chat := ApiGetChat(chatId);
      RecentMessagesListed();
      recent := chat[RecentMessages];
      ids := MessageIds(chat[RecentMessages]);
      if ids.None? {
        segment := [];
        return;
      }
      ghost var before, cacheBefore := sent, cache;
      segment := DrainChat(chatId, ids.value);
      assert recent == Some(Items(ids.value));
      AnsweredInWiden(before, sent, |old(sent)|, |old(sent)|, remote, Chat, chatId, RecentMessages, recent);
      CacheAnsweredWiden(old(cache), cacheBefore, before, sent, |old(sent)|, |old(sent)|, remote);
      CacheAnsweredTrans(old(cache), cacheBefore, cache, sent, sent, |old(sent)|, |before|, remote);
      assert StatusesAnswered(segment, old(cache), sent, |old(sent)|, remote) by {
        StatusesAnsweredAppend([], segment, old(cache), cacheBefore, before, sent, |old(sent)|, |before|, remote);
        assert [] + segment == segment;
      }
      assert MarksIn(segment, sent[|old(sent)|..]) by {
        MarksInAppend([], segment, old(sent), before, before, sent);
        assert [] + segment == segment;
      }
    }

    /** WalkChat as one step of a pass that has walked `chats[..c]`: the pass either takes in
        the chat's messages or stops there. */
    method WalkNext(chatId: string, ghost chats: seq<string>, ghost c: nat, ghost fromHandle: Option<string>,
                    ghost visits: seq<ChatVisit>, ghost trace: seq<UnreadEvent>, ghost log0: seq<string>,
                    ghost cache0: map<Key, Value>)
      returns (ids: Option<seq<string>>, segment: seq<UnreadEvent>)
      requires c < |chats| && chatId == chats[c] && InChatWith(fromHandle, chatId)
      requires Walking(chats, c, fromHandle, true, visits, trace, log0, sent, cache0, cache, remote)
      modifies this`cache, this`sent
      ensures ids.Some? ==> Walking(chats, c + 1, fromHandle, true, visits + [ChatVisit(chatId, ids.value)], trace + segment,
                                    log0, sent, cache0, cache, remote)
      ensures ids.None? ==> Stopped(chats, fromHandle, visits, trace, log0, sent, cache0, cache, remote)
      ensures old(sent) <= sent
    {
      ghost var start, cacheS := sent, cache;
      ghost var recent;
      ids, segment, recent := WalkChat(chatId);
      if ids.None? {
        EndEarly(visits, trace, chats, c, fromHandle, true, log0, start, sent, cache0, cacheS, cache, remote, recent);
      } else {
        WalkingOn(chats, c, fromHandle, true, visits, ChatVisit(chatId, ids.value), trace, segment, log0, start, sent,
                  cache0, cacheS, cache, remote);
      }
    }

    /** each_unread_chatmessage given the empty block, as at start-up. SEARCH RECENTCHATS is
        sent first; every chat it lists (only those naming `fromHandle`, when given) is
        walked in order, its RECENTCHATMESSAGES asked of Skype and those messages visited by
        DrainChat. `completed` is false where Ruby raises because a chat's
        RECENTCHATMESSAGES did not parse; the chats before it have then been walked. */
    method EachUnreadChatmessage(fromHandle: Option<string>) returns (trace: seq<UnreadEvent>, completed: bool, ghost visits: seq<ChatVisit>)
      requires fromHandle.Some? ==> SkypeHandle(fromHandle.value)
      modifies this`cache, this`sent
      ensures |sent| > |old(sent)| && sent[|old(sent)|] == SearchChatsCommand
      ensures VisitedChats(visits) <= Walked(RecentChats(|old(sent)|), fromHandle)
      ensures completed ==> VisitedChats(visits) == Walked(RecentChats(|old(sent)|), fromHandle)
      ensures !completed ==> StoppedAt(visits, Walked(RecentChats(|old(sent)|), fromHandle), sent, |old(sent)|, remote)
      ensures VisitsAnswered(visits, sent, |old(sent)|, remote) && CheckedIds(trace) == VisitedIds(visits)
      ensures UnreadTrace(trace) && StatusesAnswered(trace, old(cache), sent, |old(sent)|, remote)
      ensures CacheAnswered(old(cache), cache, sent, |old(sent)|, remote)
      ensures YieldsUnhandled(trace, fromHandle)
      ensures old(sent) <= sent
      ensures MarksIn(trace, sent[|old(sent)|..])
    {
      trace, completed, visits := [], true, [];
      var chats := ApiSearchRecentchats();
      WalkingStart(chats, fromHandle, true, old(sent), sent, cache, remote);
      var c := 0;
      while c < |chats|
        invariant c <= |chats| && chats == RecentChats(|old(sent)|)
        invariant |sent| > |old(sent)| && sent[|old(sent)|] == SearchChatsCommand
        invariant Walking(chats, c, fromHandle, true, visits, trace, old(sent), sent, old(cache), cache, remote)
      {
        var chatId := chats[c];
        if InChatWith(fromHandle, chatId) {
          var ids, segment := WalkNext(chatId, chats, c, fromHandle, visits, trace, old(sent), old(cache));
          if ids.None? {
            completed := false;
            return;
          }
          trace := trace + segment;
          visits := visits + [ChatVisit(chatId, ids.value)];
        } else {
          WalkingSkip(chats, c, fromHandle, true, visits, trace, old(sent), sent, old(cache), cache, remote);
        }
        c := c + 1;
      }
      assert chats[..c] == chats;
    }
  }
}
