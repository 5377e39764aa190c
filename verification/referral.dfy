/** Referral links and the ledger side of `/start`: the link a user shares
    carries `r<id>` as its start parameter, and a `/start` that carries such
    a code records the referrer on the new account and counts one more
    referral for the referrer. */
module Referral {
  import opened Base
  import opened Text
  import opened Ledger

  /** Everything of a referral link before the start parameter. */
  function LinkPrefix(botUsername: string): string
  {
    "https://t.me/" + botUsername + "?start="
  }

  /** The start parameter of a user's referral link. */
  function StartPayload(id: int): string
  {
    "r" + IntToString(id)
  }

  /** `generate_referral_link`. */
  function ReferralLink(botUsername: string, id: int): string
  {
    LinkPrefix(botUsername) + StartPayload(id)
  }

  /** The referral code of a `/start`: the first argument, when it begins
      with `r` and the rest reads as an integer; otherwise none (a bad code
      is logged and ignored). */
  function ParseReferral(args: seq<string>): (r: Option<int>)
    ensures r.Some? <==> |args| > 0 && |args[0]| > 0 && args[0][0] == 'r' && IsIntLiteral(args[0][1..])
    ensures r.Some? ==> ParseInt(args[0][1..]) == r
  {
    if |args| > 0 && StartsWith(args[0], "r") then ParseInt(args[0][1..]) else None
  }

  /** Opening a user's referral link hands `/start` exactly that user's id. */
  lemma ReferralRoundTrip(botUsername: string, id: int)
    ensures var link := ReferralLink(botUsername, id);
            ParseReferral([link[|LinkPrefix(botUsername)|..]]) == Some(id)
  {
    IntRoundTrip(id);
    assert StartPayload(id)[1..] == IntToString(id);
  }

  /** Different users get different links from the same bot. */
  lemma ReferralLinkInjective(botUsername: string, id1: int, id2: int)
    requires ReferralLink(botUsername, id1) == ReferralLink(botUsername, id2)
    ensures id1 == id2
  {
    ReferralRoundTrip(botUsername, id1);
    ReferralRoundTrip(botUsername, id2);
  }

  /** The referrer `/start` credits: the parsed code, unless it is zero
      (`if referred_by:` skips 0). */
  function CreditedReferrer(args: seq<string>): (r: Option<int>)
    ensures r.Some? <==> ParseReferral(args).Some? && ParseReferral(args).value != 0
    ensures r.Some? ==> r == ParseReferral(args)
  {
    match ParseReferral(args)
    case Some(v) => if v != 0 then Some(v) else None
    case None => None
  }

  /** The ledger effect of `/start` from user `id` with arguments `args`:
      get-or-create the user, recording the parsed referrer, then add a
      referral to that referrer on every `/start` that carries a non-zero
      code, whether or not the account was new. */
  function StartLedger(db: Store, id: int, username: string, args: seq<string>): (r: Store)
    ensures Lookup(r, Key(id)).Some?
    ensures Valid(db) ==> Valid(r)
  {
    Credit(GetOrCreate(db, id, username, ParseReferral(args)).0, CreditedReferrer(args))
  }

  /** The `add_referral` call of `/start`, made only for a credited code. */
  function Credit(db: Store, referrer: Option<int>): (r: Store)
    ensures |r| == |db|
    ensures forall k :: (referrer.None? || k != Key(referrer.value)) ==> Lookup(r, k) == Lookup(db, k)
    ensures referrer.Some? && Lookup(db, Key(referrer.value)).Some? ==>
              var prev := Lookup(db, Key(referrer.value)).value;
              Lookup(r, Key(referrer.value)) == Some(prev.(referrals := prev.referrals + 1))
    ensures Valid(db) ==> Valid(r)
  {
    match referrer
    case None => db
    case Some(ref) => AddReferral(db, ref)
  }

  /** On first contact `/start` registers the user under the display name
      and referral code given, with nothing earned. */
  lemma StartRegistersNewUser(db: Store, id: int, username: string, args: seq<string>)
    requires Lookup(db, Key(id)).None?
    ensures var rec := Lookup(StartLedger(db, id, username, args), Key(id)).value;
            && rec.username == username
            && rec.referredBy == ParseReferral(args)
            && rec.totalEarned == 0
            && rec.referrals == (if CreditedReferrer(args) == Some(id) then 1 else 0)
  {
    var db1 := GetOrCreate(db, id, username, ParseReferral(args)).0;
    match CreditedReferrer(args)
    case None =>
    case Some(ref) =>
      IntToStringInjective(id, ref);
      if ref != id {
        assert Lookup(AddReferral(db1, ref), Key(id)) == Lookup(db1, Key(id));
      }
  }

  /** `/start` changes no record but the sender's and the credited
      referrer's. */
  lemma StartFrame(db: Store, id: int, username: string, args: seq<string>, k: string)
    requires k != Key(id)
    requires CreditedReferrer(args).None? || k != Key(CreditedReferrer(args).value)
    ensures Lookup(StartLedger(db, id, username, args), k) == Lookup(db, k)
  {
  }

  /** The only record `/start` can add is the sender's. */
  lemma StartAddsOnlySender(db: Store, id: int, username: string, args: seq<string>, k: string)
    requires Lookup(db, k).None? && Lookup(StartLedger(db, id, username, args), k).Some?
    ensures k == Key(id)
  {
  }

  /** A `/start` carrying another registered user's non-zero code adds
      exactly one referral to that user's record and changes nothing else
      in it. */
  lemma StartCreditsReferrer(db: Store, id: int, username: string, args: seq<string>,
                              ref: int, prev: UserRecord)
    requires CreditedReferrer(args) == Some(ref) && ref != id
    requires Lookup(db, Key(ref)) == Some(prev)
    ensures Lookup(StartLedger(db, id, username, args), Key(ref))
              == Some(prev.(referrals := prev.referrals + 1))
  {
    var db1 := GetOrCreate(db, id, username, ParseReferral(args)).0;
    CreditAfterCreate(db, id, username, ParseReferral(args), ref);
    CreditLands(db1, ref, prev);
    assert StartLedger(db, id, username, args) == Credit(db1, Some(ref));
  }

  /** A credit lands on the referrer's record as it stands. */
  lemma CreditLands(db: Store, ref: int, prev: UserRecord)
    requires Lookup(db, Key(ref)) == Some(prev)
    ensures Lookup(Credit(db, Some(ref)), Key(ref)) == Some(prev.(referrals := prev.referrals + 1))
  {
  }

  /** Creating a user does not disturb another user's record, so a referral
      credited right after lands on the record as it was. */
  lemma CreditAfterCreate(db: Store, id: int, username: string, referredBy: Option<int>, ref: int)
    requires ref != id
    ensures Lookup(GetOrCreate(db, id, username, referredBy).0, Key(ref)) == Lookup(db, Key(ref))
  {
    IntToStringInjective(id, ref);
  }

  /** Every `/start` through a link counts again: two `/start`s with the same
      code from an already registered user add two referrals. */
  lemma RepeatedStartCountsTwice(db: Store, id: int, username: string, args: seq<string>, ref: int)
    requires CreditedReferrer(args) == Some(ref) && ref != id
    requires Lookup(db, Key(ref)).Some?
    ensures var db2 := StartLedger(StartLedger(db, id, username, args), id, username, args);
            Lookup(db2, Key(ref)).value.referrals == Lookup(db, Key(ref)).value.referrals + 2
  {
  }

  /** A code naming nobody in the store is no error: the new user is still
      created, remembers the code, and no record appears for the referrer. */
  lemma UnknownReferrerIsHarmless(db: Store, id: int, username: string, args: seq<string>, ref: int)
    requires ParseReferral(args) == Some(ref) && ref != id
    requires Lookup(db, Key(ref)).None? && Lookup(db, Key(id)).None?
    ensures var r := StartLedger(db, id, username, args);
            Lookup(r, Key(id)).Some? && Lookup(r, Key(id)).value.referredBy == Some(ref)
            && Lookup(r, Key(ref)).None?
  {
    IntToStringInjective(id, ref);
  }

  /** Following one's own link on first contact counts as one referral of
      oneself: the source does not exclude self-referral. */
  lemma SelfReferralCounts(db: Store, id: int, username: string)
    requires id != 0 && Lookup(db, Key(id)).None?
    ensures var r := StartLedger(db, id, username, [StartPayload(id)]);
            Lookup(r, Key(id)).value.referrals == 1
            && Lookup(r, Key(id)).value.referredBy == Some(id)
  {
    ReferralRoundTrip("", id);
    assert [StartPayload(id)] == [ReferralLink("", id)[|LinkPrefix("")|..]];
  }
}
