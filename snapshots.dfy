/**
 * The month-over-month movement rule of `UserManager.update_okr_movement`
 * and the snapshot store it reads and writes: one OKR value per
 * (user id, year, month), reached over HTTP in the source and held here as
 * an in-memory map.
 */
module Snapshots {
  import opened Records
  import opened Calendar
  import opened Goals

  type Key = (string, int, int)

  type Store = map<Key, real>

  function KeyOf(uid: string, ym: YearMonth): Key {
    (uid, ym.year, ym.month)
  }

  /** A read of the store: absent keys (and, in the source, failed reads) give None. */
  function Lookup(s: Store, k: Key): Option<real> {
    if k in s then Some(s[k]) else None
  }

  /**
   * Python's `round(x, 2)` on exact reals: the nearest multiple of 0.01,
   * ties to the even hundredth.
   */
  function Round2(x: real): (r: real)
    ensures -0.005 <= r - x <= 0.005
    ensures ((r * 100.0).Floor as real) == r * 100.0
  {
    var y := x * 100.0;
    var f := y.Floor;
    var frac := y - f as real;
    var n := if frac < 0.5 then f
             else if frac > 0.5 then f + 1
             else if f % 2 == 0 then f else f + 1;
    assert (n as real / 100.0) * 100.0 == n as real;
    n as real / 100.0
  }

  /**
   * A user's movement: in a quarter-start month the current value itself;
   * otherwise the current value less the previous month's baseline (0 when
   * absent), rounded to two decimals.
   */
  function MovementFor(current: real, baseline: Option<real>, month: int): (m: real)
    ensures IsQuarterStartMonth(month) ==> m == current
    ensures !IsQuarterStartMonth(month) ==>
              -0.005 <= m - (current - baseline.GetOr(0.0)) <= 0.005
  {
    if IsQuarterStartMonth(month) then current
    else Round2(current - baseline.GetOr(0.0))
  }

  /** A missing baseline and a stored zero give the same movement. */
  lemma MissingBaselineIsZero(current: real, month: int)
    ensures MovementFor(current, None, month) == MovementFor(current, Some(0.0), month)
  {
  }

  /** In a quarter-start month the stored baseline plays no part. */
  lemma QuarterStartIgnoresBaseline(current: real, b1: Option<real>, b2: Option<real>, month: int)
    requires IsQuarterStartMonth(month)
    ensures MovementFor(current, b1, month) == MovementFor(current, b2, month)
  {
  }

  /** The keys `(uid, ym)` of all the given users. */
  function KeysFor(ids: set<string>, ym: YearMonth): (keys: set<Key>)
    ensures forall k :: k in keys <==> k.0 in ids && k.1 == ym.year && k.2 == ym.month
  {
    var keys := set uid | uid in ids :: KeyOf(uid, ym);
    assert forall k: Key :: k.0 in ids && k.1 == ym.year && k.2 == ym.month ==> KeyOf(k.0, ym) == k;
    keys
  }

  /**
   * The store after a movement run over the users `ids` in month `now`:
   * each user's current-month entry holds their current value, each user's
   * missing previous-month entry holds 0, and every other entry is as it was.
   */
  function AfterRun(s: Store, ids: set<string>, avg: map<string, real>, now: YearMonth): Store
    requires 1 <= now.month <= 12
  {
    map k | k in s.Keys + KeysFor(ids, PreviousMonth(now)) + KeysFor(ids, now) ::
      if k.0 in ids && k.1 == now.year && k.2 == now.month then CurrentOkr(avg, k.0)
      else if k in s then s[k]
      else 0.0
  }

  /**
   * What a run leaves in the store: every user's current month holds their
   * current value, every user has a previous-month entry, an entry that was
   * there before keeps its value unless it is a current-month entry of a
   * user, a previous-month entry that was missing holds 0, and nothing else
   * is added.
   */
  lemma AfterRunSpec(s: Store, ids: set<string>, avg: map<string, real>, now: YearMonth, uid: string, k: Key)
    requires 1 <= now.month <= 12
    requires uid in ids
    ensures var after := AfterRun(s, ids, avg, now);
      && KeyOf(uid, now) in after && after[KeyOf(uid, now)] == CurrentOkr(avg, uid)
      && KeyOf(uid, PreviousMonth(now)) in after
      && after[KeyOf(uid, PreviousMonth(now))] == Lookup(s, KeyOf(uid, PreviousMonth(now))).GetOr(0.0)
      && (k in s && k !in KeysFor(ids, now) ==> k in after && after[k] == s[k])
      && (k in after ==> k in s || k in KeysFor(ids, now) || k in KeysFor(ids, PreviousMonth(now)))
  {
  }

  /** Previous-month entries that existed before a run are never overwritten by it. */
  lemma ExistingBaselineKept(s: Store, ids: set<string>, avg: map<string, real>, now: YearMonth, uid: string)
    requires 1 <= now.month <= 12
    requires KeyOf(uid, PreviousMonth(now)) in s
    ensures Lookup(AfterRun(s, ids, avg, now), KeyOf(uid, PreviousMonth(now))) == Lookup(s, KeyOf(uid, PreviousMonth(now)))
  {
  }

  /**
   * One user's step of a run: their previous-month entry reads as it did
   * before the run, and backfilling it (when missing) and then writing
   * their current month extends the run by that user.
   */
  lemma AfterRunStep(s: Store, done: set<string>, avg: map<string, real>, now: YearMonth, uid: string)
    requires 1 <= now.month <= 12
    requires uid !in done
    ensures var before := AfterRun(s, done, avg, now);
      var pk := KeyOf(uid, PreviousMonth(now));
      && Lookup(before, pk) == Lookup(s, pk)
      && AfterRun(s, done + {uid}, avg, now)
         == (if pk in before then before else before[pk := 0.0])[KeyOf(uid, now) := CurrentOkr(avg, uid)]
  {
    var before := AfterRun(s, done, avg, now);
    var pk, ck := KeyOf(uid, PreviousMonth(now)), KeyOf(uid, now);
    var after := AfterRun(s, done + {uid}, avg, now);
    var stepped := (if pk in before then before else before[pk := 0.0])[ck := CurrentOkr(avg, uid)];
    assert pk != ck;
    forall k: Key
      ensures k in after <==> k in stepped
      ensures k in after ==> after[k] == stepped[k]
    {
      if k == ck {
      } else if k == pk {
        assert pk !in KeysFor(done, now);
      } else if k.0 == uid {
        assert k !in KeysFor(done + {uid}, now) && k !in KeysFor(done + {uid}, PreviousMonth(now));
      } else {
        assert k in KeysFor(done + {uid}, now) <==> k in KeysFor(done, now);
        assert k in KeysFor(done + {uid}, PreviousMonth(now)) <==> k in KeysFor(done, PreviousMonth(now));
      }
    }
  }

  /** The snapshot store, reached through get / insert / update requests in the source. */
  class SnapshotStore {
    var data: Store

    constructor (initial: Store)
      ensures data == initial
    {
      data := initial;
    }

    /** `get_okr_from_sheets`: the stored value, or None. */
    function Get(uid: string, year: int, month: int): (r: Option<real>)
      reads this
      ensures r.Some? <==> (uid, year, month) in data
      ensures r.Some? ==> r.value == data[(uid, year, month)]
    {
      Lookup(data, (uid, year, month))
    }

    /** `insert_okr_to_sheets`: adds the row for a key. */
    method Insert(uid: string, year: int, month: int, value: real)
      modifies this
      ensures data == old(data)[(uid, year, month) := value]
      ensures Get(uid, year, month) == Some(value)
    {
      data := data[(uid, year, month) := value];
    }

    /**
     * `update_okr_to_sheets`: reads the key, then inserts when absent or
     * updates when present. Either way the key then holds `value`.
     */
    method Upsert(uid: string, year: int, month: int, value: real)
      modifies this
      ensures data == old(data)[(uid, year, month) := value]
      ensures Get(uid, year, month) == Some(value)
    {
      var existing := Get(uid, year, month);
      if existing == None {
        Insert(uid, year, month, value);
      } else {
        data := data[(uid, year, month) := value];
      }
    }
  }
}
