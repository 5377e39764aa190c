/** The per-user conversation of the purchase flow: the purpose buttons
    (`purpose_handler`) and free text (`handle_text_input`). Each user's chat
    keeps three items between messages; the functions here take them and
    return the items to keep together with the reply the bot sends. */
module Conversation {
  import opened Base
  import opened Text
  import opened Ledger
  import opened Referral

  /** The chat's `user_data`: an absent flag is `false`, an absent handle
      `None`. */
  datatype ConvState = ConvState(
    awaitingFriendUsername: bool,
    awaitingAmount: bool,
    friendUsername: Option<string>)

  /** A chat nobody has written in yet. */
  const Fresh := ConvState(false, false, None)

  /** What the bot answers, without its wording and keyboards. */
  datatype Reply =
    | Silent                          // no answer
    | Welcome                         // greeting with the two purpose buttons
    | MainMenu                        // the two-button reply keyboard
    | AskAmount                       // "enter the amount (min. 50)"
    | AskFriendUsername               // "enter your friend's @username"
    | AskHandleFormat                 // "enter the username with @"
    | FriendNotFound(link: string)    // with the sender's referral link
    | FriendFound                     // "found, enter the amount"
    | AskNumber                       // "enter a valid number"
    | AmountOutOfRange                // "range: 50-1,000,000 stars"
    | PaymentOffer(priceKopecks: int, memo: string)
    | PurposeChoice                   // "who are the stars for" with buttons
    | PartnerProgram(referrals: int, earned: int, link: string)

  const PurposeSelf := "purpose_self"
  const PurposeFriend := "purpose_friend"
  const BuyStarsText := "⭐ Купить Звезды"
  const ReferralSystemText := "👥 Реферальная система"

  const MinStars := 50
  const MaxStars := 1_000_000
  /** Two roubles. */
  const MinPriceKopecks := 200
  /** 0.05 roubles per star. */
  const KopecksPerStar := 5

  /** `purpose_handler`: the self button starts waiting for an amount, the
      gift button starts waiting for a friend's handle; neither clears the
      other flag, and any other `purpose_` payload only acknowledges. */
  function PurposeHandler(st: ConvState, data: string): (r: (ConvState, Reply))
    ensures data == PurposeSelf ==>
              && r.0.awaitingAmount && r.1 == AskAmount
              && r.0.awaitingFriendUsername == st.awaitingFriendUsername
              && r.0.friendUsername == st.friendUsername
    ensures data == PurposeFriend ==>
              && r.0.awaitingFriendUsername && r.1 == AskFriendUsername
              && r.0.awaitingAmount == st.awaitingAmount
              && r.0.friendUsername == st.friendUsername
    ensures data != PurposeSelf && data != PurposeFriend ==> r == (st, Silent)
  {
    if data == PurposeSelf then (st.(awaitingAmount := true), AskAmount)
    else if data == PurposeFriend then (st.(awaitingFriendUsername := true), AskFriendUsername)
    else (st, Silent)
  }

  /** `max(2, round(amount * 0.05, 2))` roubles, in kopecks. */
  function Price(amount: int): (p: int)
    ensures p >= MinPriceKopecks && p >= KopecksPerStar * amount
    ensures p == MinPriceKopecks || p == KopecksPerStar * amount
    ensures MinStars <= amount ==> p == KopecksPerStar * amount && p >= 250
  {
    if KopecksPerStar * amount > MinPriceKopecks then KopecksPerStar * amount else MinPriceKopecks
  }

  /** The payment comment binding an amount to a payer: a fixed prefix,
      the amount, then a separator starting with an underscore and the
      payer id. */
  function Memo(amount: int, uid: int): string
  {
    "Stars_" + (IntToString(amount) + ("_uid" + IntToString(uid)))
  }

  predicate IsUnderscore(c: char) { c == '_' }

  /** Splitting at the first underscore: when neither `s1` nor `s2` holds an
      underscore and both `t1` and `t2` start with one, `s1 + t1 == s2 + t2`
      forces `s1 == s2` and `t1 == t2`. */
  lemma SplitAtFirstUnderscore(s1: string, t1: string, s2: string, t2: string)
    requires forall i :: 0 <= i < |s1| ==> !IsUnderscore(s1[i])
    requires forall i :: 0 <= i < |s2| ==> !IsUnderscore(s2[i])
    requires |t1| > 0 && IsUnderscore(t1[0]) && |t2| > 0 && IsUnderscore(t2[0])
    requires s1 + t1 == s2 + t2
    ensures s1 == s2 && t1 == t2
  {
    var x := s1 + t1;
    assert |s1| == |s2| by {
      assert x[|s1|] == t1[0];
      assert (s2 + t2)[|s2|] == t2[0];
      assert forall j :: 0 <= j < |s1| ==> x[j] == s1[j];
      assert forall j :: 0 <= j < |s2| ==> x[j] == s2[j];
    }
    assert s1 == x[..|s1|] && s2 == x[..|s2|];
    assert t1 == x[|s1|..] && t2 == x[|s2|..];
  }

  lemma IntToStringHasNoUnderscore(n: int)
    ensures forall i :: 0 <= i < |IntToString(n)| ==> !IsUnderscore(IntToString(n)[i])
  {
    IntToStringChars(n);
  }

  /** Distinct (amount, payer) pairs get distinct memos, so a memo names one
      purchase request unambiguously. */
  lemma MemoInjective(a1: int, u1: int, a2: int, u2: int)
    ensures Memo(a1, u1) == Memo(a2, u2) <==> a1 == a2 && u1 == u2
  {
    if Memo(a1, u1) == Memo(a2, u2) {
      var s1, s2 := IntToString(a1), IntToString(a2);
      var t1, t2 := "_uid" + IntToString(u1), "_uid" + IntToString(u2);
      assert Memo(a1, u1)[6..] == s1 + t1 && Memo(a2, u2)[6..] == s2 + t2;
      IntToStringHasNoUnderscore(a1);
      IntToStringHasNoUnderscore(a2);
      SplitAtFirstUnderscore(s1, t1, s2, t2);
      assert t1[4..] == IntToString(u1) && t2[4..] == IntToString(u2);
      IntToStringInjective(a1, a2);
      IntToStringInjective(u1, u2);
    }
  }

  /** An amount the bot accepts: an integer literal in [50, 1_000_000]. */
  predicate AcceptedAmount(text: string)
  {
    ParseInt(text).Some? && MinStars <= ParseInt(text).value <= MaxStars
  }

  /** A handle the friend step accepts: `@` followed by the username of a
      registered user. */
  predicate ResolvableHandle(db: Store, text: string)
  {
    StartsWith(text, "@") && exists j :: 0 <= j < |db| && NameMatches(db[j].1, text[1..])
  }

  /** The friend-handle step of `handle_text_input`, on stripped text. */
  function FriendStep(st: ConvState, db: Store, botUsername: string, uid: int, text: string)
    : (r: (ConvState, Reply))
    ensures Valid(db) && ResolvableHandle(db, text) ==>
              r == (ConvState(false, true, Some(text)), FriendFound)
    ensures Valid(db) && StartsWith(text, "@") && !ResolvableHandle(db, text) ==>
              r == (st, FriendNotFound(ReferralLink(botUsername, uid)))
    ensures !StartsWith(text, "@") ==> r == (st, AskHandleFormat)
    ensures StartsWith(text, "@") && r.1 != FriendFound ==>
              r == (st, FriendNotFound(ReferralLink(botUsername, uid)))
    ensures r.1 == FriendFound ==> r.0 == ConvState(false, true, Some(text))
  {
    if !StartsWith(text, "@") then (st, AskHandleFormat)
    else
      var friend := FindUserByUsername(db, text[1..]);
      if friend.None? || friend.value == "" then (st, FriendNotFound(ReferralLink(botUsername, uid)))
      else (st.(friendUsername := Some(text), awaitingFriendUsername := false, awaitingAmount := true),
            FriendFound)
  }

  /** The amount step of `handle_text_input`, on stripped text. */
  function AmountStep(st: ConvState, uid: int, text: string): (r: (ConvState, Reply))
    ensures AcceptedAmount(text) ==>
              var amount := ParseInt(text).value;
              && r.0 == st.(awaitingAmount := false)
              && r.1 == PaymentOffer(KopecksPerStar * amount, Memo(amount, uid))
    ensures !AcceptedAmount(text) ==> r.0 == st
    ensures r.0.friendUsername == st.friendUsername && r.0.awaitingFriendUsername == st.awaitingFriendUsername
    ensures r.1.PaymentOffer? || r.1 == AskNumber || r.1 == AmountOutOfRange
    ensures r.1 == AskNumber <==> !IsIntLiteral(text)
    ensures r.1 == AmountOutOfRange <==> IsIntLiteral(text) && !AcceptedAmount(text)
  {
    match ParseInt(text)
    case None => (st, AskNumber)
    case Some(amount) =>
      if amount < MinStars || amount > MaxStars then (st, AmountOutOfRange)
      else (st.(awaitingAmount := false), PaymentOffer(Price(amount), Memo(amount, uid)))
  }

  /** The two menu texts, answered only when nothing is awaited. */
  function MenuStep(db: Store, botUsername: string, uid: int, text: string): (r: Reply)
    ensures r.PurposeChoice? <==> text == BuyStarsText
    ensures r.PartnerProgram? <==> text == ReferralSystemText
    ensures r.PartnerProgram? ==>
              && (r.referrals, r.earned) == GetUserStats(db, uid)
              && r.link == ReferralLink(botUsername, uid)
    ensures r.Silent? || r.PurposeChoice? || r.PartnerProgram?
  {
    if text == BuyStarsText then PurposeChoice
    else if text == ReferralSystemText then
      var stats := GetUserStats(db, uid);
      PartnerProgram(stats.0, stats.1, ReferralLink(botUsername, uid))
    else Silent
  }

  /** `handle_text_input`: the friend handle is looked at first, then the
      amount, and the menu texts only when neither is awaited. Text never
      writes to the ledger. */
  function HandleTextInput(st: ConvState, db: Store, botUsername: string, uid: int, raw: string)
    : (r: (ConvState, Reply))
    ensures !st.awaitingFriendUsername && !st.awaitingAmount ==> r.0 == st
    ensures r.1.PurposeChoice? || r.1.PartnerProgram? ==>
              !st.awaitingFriendUsername && !st.awaitingAmount
    ensures r.1.PaymentOffer? ==> !st.awaitingFriendUsername && st.awaitingAmount
    ensures st.awaitingFriendUsername ==>
              r.1 in {AskHandleFormat, FriendFound, FriendNotFound(ReferralLink(botUsername, uid))}
    ensures r.0.friendUsername != st.friendUsername ==>
              st.awaitingFriendUsername && r.0 == ConvState(false, true, Some(Strip(raw)))
    ensures st.awaitingFriendUsername ==> r == FriendStep(st, db, botUsername, uid, Strip(raw))
    ensures !st.awaitingFriendUsername && st.awaitingAmount ==> r == AmountStep(st, uid, Strip(raw))
    ensures !st.awaitingFriendUsername && !st.awaitingAmount ==>
              r == (st, MenuStep(db, botUsername, uid, Strip(raw)))
  {
    var text := Strip(raw);
    if st.awaitingFriendUsername then FriendStep(st, db, botUsername, uid, text)
    else if st.awaitingAmount then AmountStep(st, uid, text)
    else (st, MenuStep(db, botUsername, uid, text))
  }

  /** A pending friend handle takes precedence: even an acceptable amount is
      read as a (malformed) handle and nothing changes. */
  lemma FriendHandleTakesPrecedence(st: ConvState, db: Store, botUsername: string, uid: int, raw: string)
    requires st.awaitingFriendUsername && st.awaitingAmount
    requires AcceptedAmount(Strip(raw))
    ensures HandleTextInput(st, db, botUsername, uid, raw) == (st, AskHandleFormat)
  {
    var text := Strip(raw);
    assert !StartsWith(text, "@") by {
      assert IsIntLiteral(text);
      assert text[0] != '@';
    }
    assert HandleTextInput(st, db, botUsername, uid, raw) == FriendStep(st, db, botUsername, uid, text);
  }

  /** With nothing awaited, the menu texts open the purchase choice and the
      referral page, and all other text is ignored. */
  lemma IdleTextIsMenu(st: ConvState, db: Store, botUsername: string, uid: int, raw: string)
    requires !st.awaitingFriendUsername && !st.awaitingAmount
    ensures var r := HandleTextInput(st, db, botUsername, uid, raw);
            && r.0 == st
            && (r.1 == PurposeChoice <==> Strip(raw) == BuyStarsText)
            && (r.1.PartnerProgram? <==> Strip(raw) == ReferralSystemText)
            && (r.1 == Silent <==> Strip(raw) != BuyStarsText && Strip(raw) != ReferralSystemText)
  {
  }

  /** The gift path end to end: asking for a gift, naming a registered
      friend and entering a valid amount ends with the handle kept, nothing
      awaited, and the payment offered for that amount. */
  lemma GiftPathOffersPayment(st: ConvState, db: Store, botUsername: string, uid: int,
                              handle: string, amountText: string)
    requires Valid(db)
    requires ResolvableHandle(db, Strip(handle)) && AcceptedAmount(Strip(amountText))
    ensures var s1 := PurposeHandler(st, PurposeFriend).0;
            var (s2, r2) := HandleTextInput(s1, db, botUsername, uid, handle);
            var (s3, r3) := HandleTextInput(s2, db, botUsername, uid, amountText);
            var amount := ParseInt(Strip(amountText)).value;
            && r2 == FriendFound
            && s3 == ConvState(false, false, Some(Strip(handle)))
            && r3 == PaymentOffer(KopecksPerStar * amount, Memo(amount, uid))
  {
  }

  /** The self-purchase path end to end: from a chat awaiting no handle, the
      self button and a valid amount end with nothing awaited, the stored
      handle untouched, and the payment offered for that amount. */
  lemma SelfPathOffersPayment(st: ConvState, db: Store, botUsername: string, uid: int,
                              amountText: string)
    requires !st.awaitingFriendUsername
    requires AcceptedAmount(Strip(amountText))
    ensures var (s1, r1) := PurposeHandler(st, PurposeSelf);
            var (s2, r2) := HandleTextInput(s1, db, botUsername, uid, amountText);
            var amount := ParseInt(Strip(amountText)).value;
            && r1 == AskAmount
            && s2 == ConvState(false, false, st.friendUsername)
            && r2 == PaymentOffer(KopecksPerStar * amount, Memo(amount, uid))
  {
  }
}
