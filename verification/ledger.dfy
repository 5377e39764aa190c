/** The user ledger kept by `UserDataManager`: the JSON object of the data
    file, read into memory, as an ordered list of (uid, record) entries.
    The order is the dict's insertion order, which decides which entry a
    username search finds first. Keys are `str(user_id)`. */
module Ledger {
  import opened Base
  import opened Text

  /** One entry of the data file. `totalEarned` is written once, as zero, and
      never accrued anywhere. */
  datatype UserRecord = UserRecord(
    username: string,
    referrals: int,
    totalEarned: int,
    referredBy: Option<int>)

  type Store = seq<(string, UserRecord)>

  /** A missing or unreadable data file is read as this. */
  const EmptyStore: Store := []

  /** The dictionary key of a user: `str(user_id)`. */
  function Key(id: int): string
  {
    IntToString(id)
  }

  /** A JSON object never holds a key twice, and every key the bot writes
      is a rendered user id, so none is empty. */
  ghost predicate Valid(db: Store)
  {
    && (forall i, j :: 0 <= i < j < |db| ==> db[i].0 != db[j].0)
    && (forall i :: 0 <= i < |db| ==> db[i].0 != "")
  }

  predicate HasKey(e: (string, UserRecord), k: string) { e.0 == k }

  /** Position of key `k`, if present. */
  function IndexOf(db: Store, k: string): (r: Option<nat>)
    ensures r.Some? ==> r.value < |db| && db[r.value].0 == k
    ensures r.Some? ==> forall j :: 0 <= j < r.value ==> db[j].0 != k
    ensures r.None? <==> forall j :: 0 <= j < |db| ==> db[j].0 != k
  {
    FirstIndex(db, e => HasKey(e, k))
  }

  /** `data.get(k)`. */
  function Lookup(db: Store, k: string): (r: Option<UserRecord>)
    ensures r.Some? <==> exists j :: 0 <= j < |db| && db[j].0 == k
    ensures r.Some? ==> exists j :: 0 <= j < |db| && db[j] == (k, r.value)
  {
    match IndexOf(db, k)
    case None => None
    case Some(i) => Some(db[i].1)
  }

  /** Two stores listing the same keys in the same positions index alike. */
  lemma SameKeysSameIndex(db: Store, db': Store, k: string)
    requires |db| == |db'|
    requires forall j :: 0 <= j < |db| ==> db[j].0 == db'[j].0
    ensures IndexOf(db, k) == IndexOf(db', k)
  {
    FirstIndexSameAnswers(db, e => HasKey(e, k), db', e => HasKey(e, k));
  }

  /** Appending an entry under another key does not move any existing key. */
  lemma IndexOfAppend(db: Store, e: (string, UserRecord), k: string)
    requires e.0 != k
    ensures IndexOf(db + [e], k) == IndexOf(db, k)
  {
    var a, b := IndexOf(db + [e], k), IndexOf(db, k);
    if a.Some? {
      assert (db + [e])[a.value] == db[a.value];
    }
    if b.Some? {
      assert (db + [e])[b.value] == db[b.value];
    }
  }

  /** The record the new user gets in `get_or_create_user`. */
  function NewRecord(username: string, referredBy: Option<int>): UserRecord
  {
    UserRecord(username, 0, 0, referredBy)
  }

  /** `get_or_create_user`: the stored record of `id`, or a fresh one
      appended to the store. Returns the new store and the record. */
  function GetOrCreate(db: Store, id: int, username: string, referredBy: Option<int>)
    : (r: (Store, UserRecord))
    ensures Lookup(r.0, Key(id)) == Some(r.1)
    ensures Lookup(db, Key(id)).Some? ==> r.0 == db && Some(r.1) == Lookup(db, Key(id))
    ensures Lookup(db, Key(id)).None? ==>
              && |r.0| == |db| + 1 && r.0[..|db|] == db && r.0[|db|].0 == Key(id)
              && r.1.username == username && r.1.referrals == 0
              && r.1.totalEarned == 0 && r.1.referredBy == referredBy
    ensures forall k :: k != Key(id) ==> Lookup(r.0, k) == Lookup(db, k)
    ensures Valid(db) ==> Valid(r.0)
  {
    var k := Key(id);
    match Lookup(db, k)
    case Some(rec) => (db, rec)
    case None =>
      var rec := NewRecord(username, referredBy);
      var db' := db + [(k, rec)];
      assert db'[..|db|] == db;
      assert IndexOf(db', k) == Some(|db|) by {
        assert db'[|db|].0 == k;
      }
      assert forall k' :: k' != k ==> Lookup(db', k') == Lookup(db, k') by {
        forall k' | k' != k ensures Lookup(db', k') == Lookup(db, k') {
          IndexOfAppend(db, (k, rec), k');
        }
      }
      (db', rec)
  }

  /** `add_referral`: one more referral on the referrer's record, if the
      referrer is in the store; otherwise nothing happens. */
  function AddReferral(db: Store, referrerId: int): (r: Store)
    ensures |r| == |db| && forall j :: 0 <= j < |db| ==> r[j].0 == db[j].0
    ensures Lookup(db, Key(referrerId)).None? ==> r == db
    ensures Lookup(db, Key(referrerId)).Some? ==>
              var prev := Lookup(db, Key(referrerId)).value;
              Lookup(r, Key(referrerId)) == Some(prev.(referrals := prev.referrals + 1))
    ensures forall k :: k != Key(referrerId) ==> Lookup(r, k) == Lookup(db, k)
    ensures Valid(db) ==> Valid(r)
  {
    var k := Key(referrerId);
    match IndexOf(db, k)
    case None => db
    case Some(i) =>
      var rec := db[i].1;
      var db' := db[i := (k, rec.(referrals := rec.referrals + 1))];
      assert forall k' :: IndexOf(db', k') == IndexOf(db, k') by {
        forall k' ensures IndexOf(db', k') == IndexOf(db, k') {
          SameKeysSameIndex(db, db', k');
        }
      }
      db'
  }

  /** `get_user_stats`: (referrals, total earned), or (0, 0) for a user the
      store does not know. */
  function GetUserStats(db: Store, id: int): (r: (int, int))
    ensures Lookup(db, Key(id)).Some? ==>
              r == (Lookup(db, Key(id)).value.referrals, Lookup(db, Key(id)).value.totalEarned)
    ensures Lookup(db, Key(id)).None? ==> r == (0, 0)
  {
    match Lookup(db, Key(id))
    case Some(rec) => (rec.referrals, rec.totalEarned)
    case None => (0, 0)
  }

  /** The test `find_user_by_username` applies to each record: a non-empty
      stored username equal to the query up to (ASCII) case. */
  predicate NameMatches(rec: UserRecord, query: string)
  {
    rec.username != "" && Lower(rec.username) == Lower(query)
  }

  predicate EntryMatches(e: (string, UserRecord), query: string)
  {
    NameMatches(e.1, query)
  }

  /** `find_user_by_username`: the key of the first entry, in store order,
      whose username matches the query. */
  function FindUserByUsername(db: Store, query: string): (r: Option<string>)
    ensures r.None? <==> forall j :: 0 <= j < |db| ==> !NameMatches(db[j].1, query)
    ensures r.Some? ==>
              exists i :: 0 <= i < |db| && db[i].0 == r.value && NameMatches(db[i].1, query)
                          && forall j :: 0 <= j < i ==> !NameMatches(db[j].1, query)
  {
    match FirstIndex(db, e => EntryMatches(e, query))
    case None => None
    case Some(i) => Some(db[i].0)
  }

  /** An empty query never finds anyone: a match needs a non-empty stored
      username, and lowering keeps the length. */
  lemma FindEmptyQuery(db: Store)
    ensures FindUserByUsername(db, "") == None
  {
    forall j | 0 <= j < |db| ensures !NameMatches(db[j].1, "") {
      if db[j].1.username != "" {
        assert |Lower(db[j].1.username)| > 0;
      }
    }
  }

  /** The search is case-insensitive: queries that lower to the same text
      find the same user. */
  lemma FindIgnoresCase(db: Store, q1: string, q2: string)
    requires Lower(q1) == Lower(q2)
    ensures FindUserByUsername(db, q1) == FindUserByUsername(db, q2)
  {
    FirstIndexSameAnswers(db, e => EntryMatches(e, q1), db, e => EntryMatches(e, q2));
  }

  /** Getting-or-creating a user twice, with any name or referrer the second
      time, is the same as doing it once: nothing is reset or duplicated. */
  lemma GetOrCreateIdempotent(db: Store, id: int, name1: string, ref1: Option<int>,
                              name2: string, ref2: Option<int>)
    ensures var (db1, rec1) := GetOrCreate(db, id, name1, ref1);
            GetOrCreate(db1, id, name2, ref2) == (db1, rec1)
  {
  }

  /** Stats see a referral: after `add_referral` a registered referrer's count
      is one higher and nobody else's stats change. */
  lemma StatsAfterAddReferral(db: Store, referrerId: int, id: int)
    ensures var before := GetUserStats(db, id);
            var after := GetUserStats(AddReferral(db, referrerId), id);
            if id == referrerId && Lookup(db, Key(id)).Some?
            then after == (before.0 + 1, before.1)
            else after == before
  {
    if id != referrerId {
      IntToStringInjective(id, referrerId);
      assert Lookup(AddReferral(db, referrerId), Key(id)) == Lookup(db, Key(id));
    }
  }

  /** A freshly created user has no referrals and no earnings. */
  lemma StatsOfNewUser(db: Store, id: int, username: string, referredBy: Option<int>)
    requires Lookup(db, Key(id)).None?
    ensures GetUserStats(GetOrCreate(db, id, username, referredBy).0, id) == (0, 0)
  {
  }
}
