/** The bot as a whole: the ledger, the bot's own username (learned on each
    `/start`) and every user's chat state, advanced one incoming event at a
    time. The Telegram transport delivers the events and sends the replies. */
module Bot {
  import opened Base
  import opened Text
  import opened Ledger
  import opened Referral
  import opened Conversation

  /** The sender of an update as Telegram describes it. */
  datatype Sender = Sender(id: int, username: Option<string>, firstName: string)

  /** The updates the registered handlers receive: `/start` with its
      arguments, `/menu`, a button whose payload starts with `purpose_`, and
      text that is not a command. */
  datatype Event =
    | StartCommand(args: seq<string>)
    | MenuCommand
    | ButtonPress(data: string)
    | TextMessage(text: string)

  datatype BotState = BotState(db: Store, botUsername: string, chats: map<int, ConvState>)

  /** `user.username or user.first_name`. */
  function DisplayName(who: Sender): (name: string)
    ensures who.username.Some? && who.username.value != "" ==> name == who.username.value
    ensures who.username.None? || who.username.value == "" ==> name == who.firstName
  {
    match who.username
    case Some(u) => if u != "" then u else who.firstName
    case None => who.firstName
  }

  function ChatOf(b: BotState, uid: int): ConvState
  {
    if uid in b.chats then b.chats[uid] else Fresh
  }

  /** One update from `who`; `me` is the bot username `get_me` reports. */
  function Step(b: BotState, who: Sender, me: string, ev: Event): (r: (BotState, Reply))
    ensures !ev.StartCommand? ==> r.0.db == b.db && r.0.botUsername == b.botUsername
    ensures ev.StartCommand? ==> r.0.botUsername == me && Lookup(r.0.db, Key(who.id)).Some?
    ensures ev.StartCommand? || ev.MenuCommand? ==> r.0.chats == b.chats
    ensures forall u :: u != who.id ==> ChatOf(r.0, u) == ChatOf(b, u)
    ensures Valid(b.db) ==> Valid(r.0.db)
    ensures ev.StartCommand? ==> r.0.db == StartLedger(b.db, who.id, DisplayName(who), ev.args) && r.1 == Welcome
    ensures ev.MenuCommand? ==> r == (b, MainMenu)
    ensures ev.ButtonPress? && StartsWith(ev.data, "purpose_") ==>
              (ChatOf(r.0, who.id), r.1) == PurposeHandler(ChatOf(b, who.id), ev.data)
    ensures ev.ButtonPress? && !StartsWith(ev.data, "purpose_") ==> r == (b, Silent)
    ensures ev.TextMessage? ==>
              (ChatOf(r.0, who.id), r.1)
                == HandleTextInput(ChatOf(b, who.id), b.db, b.botUsername, who.id, ev.text)
  {
    match ev
    case StartCommand(args) =>
      (b.(db := StartLedger(b.db, who.id, DisplayName(who), args), botUsername := me), Welcome)
    case MenuCommand => (b, MainMenu)
    case ButtonPress(data) =>
      if StartsWith(data, "purpose_") then
        var (c, reply) := PurposeHandler(ChatOf(b, who.id), data);
        (b.(chats := b.chats[who.id := c]), reply)
      else (b, Silent)
    case TextMessage(text) =>
      var (c, reply) := HandleTextInput(ChatOf(b, who.id), b.db, b.botUsername, who.id, text);
      (b.(chats := b.chats[who.id := c]), reply)
  }

  /** How one ledger can follow another: no user disappears, names, referrers
      and earnings stay as they were, and referral counts never go down. */
  ghost predicate LedgerGrows(db: Store, db': Store)
  {
    forall k :: Lookup(db, k).Some? ==>
      && Lookup(db', k).Some?
      && Lookup(db', k).value.username == Lookup(db, k).value.username
      && Lookup(db', k).value.referredBy == Lookup(db, k).value.referredBy
      && Lookup(db', k).value.totalEarned == Lookup(db, k).value.totalEarned
      && Lookup(db', k).value.referrals >= Lookup(db, k).value.referrals
  }

  lemma GetOrCreateGrows(db: Store, id: int, username: string, referredBy: Option<int>)
    ensures LedgerGrows(db, GetOrCreate(db, id, username, referredBy).0)
  {
  }

  lemma AddReferralGrows(db: Store, referrerId: int)
    ensures LedgerGrows(db, AddReferral(db, referrerId))
  {
  }

  lemma LedgerGrowsTransitive(db1: Store, db2: Store, db3: Store)
    requires LedgerGrows(db1, db2) && LedgerGrows(db2, db3)
    ensures LedgerGrows(db1, db3)
  {
  }

  /** Every update leaves the ledger grown, never shrunk or rewritten. */
  lemma StepGrows(b: BotState, who: Sender, me: string, ev: Event)
    ensures LedgerGrows(b.db, Step(b, who, me, ev).0.db)
  {
    if ev.StartCommand? {
      var args := ev.args;
      var db1 := GetOrCreate(b.db, who.id, DisplayName(who), ParseReferral(args)).0;
      GetOrCreateGrows(b.db, who.id, DisplayName(who), ParseReferral(args));
      match CreditedReferrer(args)
      case None =>
      case Some(ref) =>
        AddReferralGrows(db1, ref);
        LedgerGrowsTransitive(b.db, db1, AddReferral(db1, ref));
    }
  }

  /** The state after a sequence of updates, each with its sender and the
      bot username `get_me` reports at that moment. */
  function Run(b: BotState, updates: seq<(Sender, string, Event)>): BotState
    decreases |updates|
  {
    if |updates| == 0 then b
    else
      var (who, me, ev) := updates[0];
      Run(Step(b, who, me, ev).0, updates[1..])
  }

  /** Over any run the data file keeps one entry per user and only grows. */
  lemma {:induction false} RunGrows(b: BotState, updates: seq<(Sender, string, Event)>)
    requires Valid(b.db)
    ensures Valid(Run(b, updates).db)
    ensures LedgerGrows(b.db, Run(b, updates).db)
    decreases |updates|
  {
    if |updates| > 0 {
      var (who, me, ev) := updates[0];
      var b1 := Step(b, who, me, ev).0;
      StepGrows(b, who, me, ev);
      RunGrows(b1, updates[1..]);
      LedgerGrowsTransitive(b.db, b1.db, Run(b1, updates[1..]).db);
    }
  }

  /** Nobody has earned anything: the earnings of every stored user are
      zero. */
  ghost predicate NothingEarned(db: Store)
  {
    forall k :: Lookup(db, k).Some? ==> Lookup(db, k).value.totalEarned == 0
  }

  lemma StepKeepsNothingEarned(b: BotState, who: Sender, me: string, ev: Event)
    requires NothingEarned(b.db)
    ensures NothingEarned(Step(b, who, me, ev).0.db)
  {
    var db' := Step(b, who, me, ev).0.db;
    StepGrows(b, who, me, ev);
    forall k | Lookup(db', k).Some? ensures Lookup(db', k).value.totalEarned == 0 {
      if Lookup(b.db, k).None? {
        match ev
        case StartCommand(args) =>
          StartAddsOnlySender(b.db, who.id, DisplayName(who), args, k);
          StartRegistersNewUser(b.db, who.id, DisplayName(who), args);
      }
    }
  }

  /** From any ledger in which nobody has earned anything, every stored
      record's earnings stay zero over any run of updates. */
  lemma {:induction false} EarningsStayZero(b: BotState, updates: seq<(Sender, string, Event)>)
    requires NothingEarned(b.db)
    ensures NothingEarned(Run(b, updates).db)
    decreases |updates|
  {
    if |updates| > 0 {
      var (who, me, ev) := updates[0];
      StepKeepsNothingEarned(b, who, me, ev);
      EarningsStayZero(Step(b, who, me, ev).0, updates[1..]);
    }
  }

  /** A run in which nobody sends `/start`. */
  predicate NoStart(updates: seq<(Sender, string, Event)>)
  {
    forall i :: 0 <= i < |updates| ==> !updates[i].2.StartCommand?
  }

  /** Without `/start` the ledger and the learned bot username never change. */
  lemma {:induction false} NoStartKeepsLedger(b: BotState, updates: seq<(Sender, string, Event)>)
    requires NoStart(updates)
    ensures Run(b, updates).db == b.db && Run(b, updates).botUsername == b.botUsername
    decreases |updates|
  {
    if |updates| > 0 {
      var (who, me, ev) := updates[0];
      assert !ev.StartCommand?;
      assert NoStart(updates[1..]) by {
        forall i | 0 <= i < |updates[1..]| ensures !updates[1..][i].2.StartCommand? {
          assert updates[1..][i] == updates[i + 1];
        }
      }
      NoStartKeepsLedger(Step(b, who, me, ev).0, updates[1..]);
    }
  }

  /** The bot learns its own username only from `/start`, while the data
      file outlives the process: after a (re)start over any data file
      `db0`, and as long as nobody has sent `/start` since, an idle chat's
      referral page shows the stored stats and a link with an empty bot
      name. */
  lemma LinkBeforeFirstStart(db0: Store, updates: seq<(Sender, string, Event)>, who: Sender, me: string)
    requires NoStart(updates)
    requires var c := ChatOf(Run(BotState(db0, "", map[]), updates), who.id);
             !c.awaitingFriendUsername && !c.awaitingAmount
    ensures Step(Run(BotState(db0, "", map[]), updates), who, me, TextMessage(ReferralSystemText)).1
            == PartnerProgram(GetUserStats(db0, who.id).0, GetUserStats(db0, who.id).1,
                              "https://t.me/?start=" + StartPayload(who.id))
  {
    NoStartKeepsLedger(BotState(db0, "", map[]), updates);
    ReferralPageWithoutBotName(Run(BotState(db0, "", map[]), updates), who, me);
  }

  /** The referral page of an idle chat while the bot username is unknown. */
  lemma ReferralPageWithoutBotName(b: BotState, who: Sender, me: string)
    requires b.botUsername == ""
    requires !ChatOf(b, who.id).awaitingFriendUsername && !ChatOf(b, who.id).awaitingAmount
    ensures Step(b, who, me, TextMessage(ReferralSystemText)).1
            == PartnerProgram(GetUserStats(b.db, who.id).0, GetUserStats(b.db, who.id).1,
                              "https://t.me/?start=" + StartPayload(who.id))
  {
    var c := ChatOf(b, who.id);
    IdleReferralReply(c, b.db, b.botUsername, who.id);
    assert Step(b, who, me, TextMessage(ReferralSystemText)).1
           == HandleTextInput(c, b.db, b.botUsername, who.id, ReferralSystemText).1;
  }

  /** In an idle chat the referral button's text opens the referral page
      with the stored stats and the sender's link. */
  lemma IdleReferralReply(c: ConvState, db: Store, botUsername: string, uid: int)
    requires !c.awaitingFriendUsername && !c.awaitingAmount
    ensures HandleTextInput(c, db, botUsername, uid, ReferralSystemText).1
            == PartnerProgram(GetUserStats(db, uid).0, GetUserStats(db, uid).1, ReferralLink(botUsername, uid))
  {
    ReferralTextIsStripped();
  }

  /** The referral button's text has no surrounding white space. */
  lemma ReferralTextIsStripped()
    ensures Strip(ReferralSystemText) == ReferralSystemText
  {
    var t := ReferralSystemText;
    assert !IsSpace(t[0]) && !IsSpace(t[|t| - 1]);
    assert TrimStart(t) == t;
    assert TrimEnd(t) == t;
  }
}
