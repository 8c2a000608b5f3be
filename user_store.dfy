/**
 * One participant's ink ledger (src/lib/stores/user.svelte.ts).
 *
 * `UserStore` holds the participant's id, the local ink budget, the loading
 * flag and the regeneration timer. What the browser and the backing store
 * supply (the locally cached record, a fresh UUID, the clock, the upsert's
 * answer, the timer handle, ink notifications) arrives as method
 * parameters; what the store sends out (the upsert row, the record written
 * back to the cache, the ink write after a tick) is returned.
 */
module Users {
  import opened Wrappers
  import opened Constants

  /** The record cached in local storage; each field may be missing. */
  datatype StoredUser = StoredUser(id: Option<string>, ink: Option<int>, joinedAt: Option<string>)

  /** A participant as initialization assembles it. */
  datatype User = User(id: string, ink: int, joinedAt: string)

  /** A row of the `users` table. */
  datatype UserRow = UserRow(id: string, ink: int, joinedAt: string, updatedAt: string)

  /** The answer to the upsert: an error, or the row it selected back (possibly none). */
  datatype UpsertResponse = UpsertFailed | UpsertReturned(row: Option<UserRow>)

  /** The update a regeneration tick sends: the row `id` gets `ink`, stamped `updatedAt`. */
  datatype InkWrite = InkWrite(id: string, ink: int, updatedAt: string)

  /** A handle returned by the timer runtime; it is never zero. */
  type TimerId = t: int | t > 0 witness 1

  // ---------------------------------------------------------------------
  // Ink arithmetic

  /** `Math.max(0, ink - amount)`: spending clamps at zero but is never refused. */
  function Spend(ink: int, amount: int): (r: int)
    ensures r >= 0
    ensures r >= ink - amount
    ensures r == ink - amount || r == 0
    ensures amount >= 0 && ink >= 0 ==> r <= ink
  {
    if ink - amount > 0 then ink - amount else 0
  }

  /** `Math.min(ink + 1, MAX_INK)`: one regeneration step, capped at `MAX_INK`. */
  function Regenerate(ink: int): (r: int)
    ensures r <= MAX_INK
    ensures ink < MAX_INK ==> r == ink + 1
    ensures ink >= MAX_INK ==> r == MAX_INK
  {
    if ink + 1 < MAX_INK then ink + 1 else MAX_INK
  }

  /** `!this.#id`: no id, or the empty string. */
  predicate IsFalsyId(id: Option<string>) {
    id.None? || id.value == ""
  }

  /** The ink after one timer tick: unchanged while the id is falsy. */
  function TickInk(id: Option<string>, ink: int): (r: int)
    ensures IsFalsyId(id) ==> r == ink
    ensures !IsFalsyId(id) ==> r == Regenerate(ink)
  {
    if IsFalsyId(id) then ink else Regenerate(ink)
  }

  /** Two spends of non-negative amounts are one spend of their total. */
  lemma SpendComposes(ink: int, a: int, b: int)
    requires a >= 0 && b >= 0
    ensures Spend(Spend(ink, a), b) == Spend(ink, a + b)
  {
  }

  /** Spending a non-negative amount keeps the ink within `[0, MAX_INK]`. */
  lemma SpendKeepsRange(ink: int, amount: int)
    requires 0 <= ink <= MAX_INK && amount >= 0
    ensures 0 <= Spend(ink, amount) <= MAX_INK
  {
  }

  /** A negative amount is not rejected: it raises the ink, past `MAX_INK` if large enough. */
  lemma SpendNegativeRaises(ink: int, amount: int)
    requires amount < 0 && ink >= 0
    ensures Spend(ink, amount) == ink - amount > ink
  {
  }

  function Sum(amounts: seq<int>): int {
    if amounts == [] then 0 else amounts[0] + Sum(amounts[1..])
  }

  /** The ink after spending `amounts` in turn. */
  function SpendAll(ink: int, amounts: seq<int>): int
    decreases |amounts|
  {
    if amounts == [] then ink else SpendAll(Spend(ink, amounts[0]), amounts[1..])
  }

  /** A run of spends of non-negative amounts leaves `max(0, ink - total)`. */
  lemma {:induction false} SpendAllClamps(ink: int, amounts: seq<int>)
    requires ink >= 0
    requires forall i :: 0 <= i < |amounts| ==> amounts[i] >= 0
    ensures SpendAll(ink, amounts) == Spend(ink, Sum(amounts))
    decreases |amounts|
  {
    if amounts != [] {
      SpendAllClamps(Spend(ink, amounts[0]), amounts[1..]);
      SumNonNegative(amounts[1..]);
    }
  }

  lemma {:induction false} SumNonNegative(amounts: seq<int>)
    requires forall i :: 0 <= i < |amounts| ==> amounts[i] >= 0
    ensures Sum(amounts) >= 0
    decreases |amounts|
  {
    if amounts != [] {
      SumNonNegative(amounts[1..]);
    }
  }

  /** The ink after `n` regeneration steps. */
  function RegenerateTimes(ink: int, n: nat): int {
    if n == 0 then ink else Regenerate(RegenerateTimes(ink, n - 1))
  }

  /**
   * From at most `MAX_INK`, `n` ticks add `n` up to the cap; at the cap
   * further ticks change nothing.
   */
  lemma {:induction false} RegenerateTimesCaps(ink: int, n: nat)
    requires ink <= MAX_INK
    ensures RegenerateTimes(ink, n) == if ink + n < MAX_INK then ink + n else MAX_INK
  {
    if n > 0 {
      RegenerateTimesCaps(ink, n - 1);
    }
  }

  /** A callback the event loop runs against the ledger. */
  datatype LedgerEvent = Consumed(amount: int) | Ticked | InkNotified(ink: int)

  /** The ink after one callback, for a participant with id `id`. */
  function Step(id: Option<string>, ink: int, e: LedgerEvent): int {
    match e
    case Consumed(amount) => Spend(ink, amount)
    case Ticked => TickInk(id, ink)
    case InkNotified(v) => v
  }

  /** The ink after the callbacks `events`, run in order. */
  function Run(id: Option<string>, ink: int, events: seq<LedgerEvent>): int
    decreases |events|
  {
    if events == [] then ink else Run(id, Step(id, ink, events[0]), events[1..])
  }

  /** Spends of non-negative amounts, ticks, and notifications of in-range values. */
  predicate KeepsRange(e: LedgerEvent) {
    match e
    case Consumed(amount) => amount >= 0
    case Ticked => true
    case InkNotified(v) => 0 <= v <= MAX_INK
  }

  /**
   * However spends, ticks and notifications interleave, the ink stays
   * within `[0, MAX_INK]` as long as every spend is non-negative and every
   * notified value is in range.
   */
  lemma {:induction false} RunStaysInRange(id: Option<string>, ink: int, events: seq<LedgerEvent>)
    requires 0 <= ink <= MAX_INK
    requires forall i :: 0 <= i < |events| ==> KeepsRange(events[i])
    ensures 0 <= Run(id, ink, events) <= MAX_INK
    decreases |events|
  {
    if events != [] {
      assert KeepsRange(events[0]);
      RunStaysInRange(id, Step(id, ink, events[0]), events[1..]);
    }
  }

  /** The last notification decides the ink, whatever came before it. */
  lemma {:induction false} RunEndsWithNotification(id: Option<string>, ink: int, events: seq<LedgerEvent>, v: int)
    ensures Run(id, ink, events + [InkNotified(v)]) == v
    decreases |events|
  {
    if events == [] {
      assert events + [InkNotified(v)] == [InkNotified(v)];
    } else {
      assert (events + [InkNotified(v)])[1..] == events[1..] + [InkNotified(v)];
      RunEndsWithNotification(id, Step(id, ink, events[0]), events[1..], v);
    }
  }

  // ---------------------------------------------------------------------
  // Initialization

  /**
   * The participant assembled from the cached record: each missing field
   * is defaulted on its own, the id to `freshId`, the ink to `MAX_INK`, the
   * join time to `now`.
   */
  function LocalUser(stored: StoredUser, freshId: string, now: string): (u: User)
    ensures stored.id.Some? ==> u.id == stored.id.value
    ensures stored.id.None? ==> u.id == freshId
    ensures stored.ink.Some? ==> u.ink == stored.ink.value
    ensures stored.ink.None? ==> u.ink == MAX_INK
    ensures stored.joinedAt.Some? ==> u.joinedAt == stored.joinedAt.value
    ensures stored.joinedAt.None? ==> u.joinedAt == now
  {
    User(stored.id.GetOr(freshId), stored.ink.GetOr(MAX_INK), stored.joinedAt.GetOr(now))
  }

  /**
   * The row sent in the upsert: the local participant, with `updated_at`
   * set to the join time. When the database hands that row back, the
   * success path settles on the same participant as the failure path.
   */
  function UpsertRow(u: User): (row: UserRow)
    ensures row.updatedAt == row.joinedAt
    ensures Resolve(u, UpsertReturned(Some(row))) == Resolve(u, UpsertFailed) == Some(u)
  {
    UserRow(u.id, u.ink, u.joinedAt, u.joinedAt)
  }

  /**
   * The participant initialization settles on: the local one when the
   * upsert failed, the returned row's otherwise, and none when the upsert
   * neither failed nor returned a row (then writing the cache throws).
   */
  function Resolve(local: User, response: UpsertResponse): (r: Option<User>)
    ensures response.UpsertFailed? ==> r == Some(local)
    ensures response.UpsertReturned? && response.row.Some? ==>
      r.Some? && r.value.id == response.row.value.id && r.value.ink == response.row.value.ink
      && r.value.joinedAt == response.row.value.joinedAt
    ensures response.UpsertReturned? && response.row.None? ==> r.None?
  {
    match response
    case UpsertFailed => Some(local)
    case UpsertReturned(Some(row)) => Some(User(row.id, row.ink, row.joinedAt))
    case UpsertReturned(None) => None
  }

  /** The record written back to the cache: every field present, mirroring `u`. */
  function CacheRecord(u: User): (r: StoredUser)
    ensures r.id == Some(u.id) && r.ink == Some(u.ink) && r.joinedAt == Some(u.joinedAt)
  {
    StoredUser(Some(u.id), Some(u.ink), Some(u.joinedAt))
  }

  /**
   * The cache written by a completed initialization is read back whole next
   * time: the fresh UUID and clock of the next session are not used.
   */
  lemma CachedUserIsStable(u: User, freshId: string, now: string)
    ensures LocalUser(CacheRecord(u), freshId, now) == u
  {
  }

  /** A failed upsert keeps the cached participant, whatever was in the database. */
  lemma FailedUpsertKeepsLocal(stored: StoredUser, freshId: string, now: string)
    requires stored.id.Some? && stored.ink.Some? && stored.joinedAt.Some?
    ensures Resolve(LocalUser(stored, freshId, now), UpsertFailed) == Some(User(stored.id.value, stored.ink.value, stored.joinedAt.value))
  {
  }

  // ---------------------------------------------------------------------
  // The store

  class UserStore {
    var id: Option<string>
    var ink: int
    var isLoading: bool
    /** The handle of the regeneration interval, once one was started. */
    var regenerationTimer: Option<TimerId>
    /** Whether the runtime still fires that interval (cleared by `destroy`). */
    var intervalActive: bool

    ghost predicate Valid()
      reads this
    {
      intervalActive ==> regenerationTimer.Some?
    }

    ghost predicate InkInRange()
      reads this
    {
      0 <= ink <= MAX_INK
    }

    /** A fresh store: no id, full ink, still loading, no timer. */
    constructor ()
      ensures Valid() && InkInRange()
      ensures id == None && ink == MAX_INK && isLoading
      ensures regenerationTimer == None && !intervalActive
    {
      id := None;
      ink := MAX_INK;
      isLoading := true;
      regenerationTimer := None;
      intervalActive := false;
    }

    /**
     * `initialize`: assembles the participant from the cached record
     * `stored`, sends it as `request`, and settles on the participant
     * `Resolve` picks from `response`. When there is one, id and ink take
     * its values, the cache is rewritten to mirror it (`written`), loading
     * ends and the regeneration interval `timer` starts. When there is none,
     * the method throws before any of that and nothing changes.
     */
    method Initialize(stored: StoredUser, freshId: string, now: string, response: UpsertResponse, timer: TimerId)
      returns (request: UserRow, written: Option<StoredUser>)
      requires Valid()
      modifies this
      ensures Valid()
      ensures request == UpsertRow(LocalUser(stored, freshId, now))
      ensures Resolve(LocalUser(stored, freshId, now), response).None? ==>
        && written == None
        && id == old(id) && ink == old(ink) && isLoading == old(isLoading)
        && regenerationTimer == old(regenerationTimer) && intervalActive == old(intervalActive)
      ensures Resolve(LocalUser(stored, freshId, now), response).Some? ==>
        var u := Resolve(LocalUser(stored, freshId, now), response).value;
        && written == Some(CacheRecord(u))
        && id == Some(u.id) && ink == u.ink && !isLoading
        && regenerationTimer == Some(timer) && intervalActive
    {
      var user := LocalUser(stored, freshId, now);
      request := UpsertRow(user);

      if response.UpsertFailed? {
        id := Some(user.id);
        ink := user.ink;
      } else if response.row.Some? {
        id := Some(response.row.value.id);
        ink := response.row.value.ink;
      }

      if response.UpsertReturned? && response.row.None? {
        // reading the missing row's id for the cache throws here
        written := None;
        return;
      }
      var chosen := if response.UpsertFailed? then user
                    else User(response.row.value.id, response.row.value.ink, response.row.value.joinedAt);
      written := Some(CacheRecord(chosen));

      isLoading := false;
      regenerationTimer := Some(timer);
      intervalActive := true;
    }

    /**
     * The ink-change notification handler: the notified value replaces the
     * local ink outright, whatever it was, so a repeated delivery changes
     * nothing further.
     */
    method OnInkChanged(notified: int)
      modifies this`ink
      ensures ink == notified
    {
      ink := notified;
    }

    /**
     * One firing of the regeneration interval: with a falsy id nothing
     * happens; otherwise the ink regenerates one step and the new value is
     * sent as `write`, stamped `now`.
     */
    method RegenerationTick(now: string) returns (write: Option<InkWrite>)
      requires intervalActive
      modifies this`ink
      ensures ink == TickInk(id, old(ink))
      ensures old(InkInRange()) ==> InkInRange()
      ensures write == if IsFalsyId(id) then None else Some(InkWrite(id.value, ink, now))
    {
      if IsFalsyId(id) {
        return None;
      }
      ink := Regenerate(ink);
      write := Some(InkWrite(id.value, ink, now));
    }

    /** `consumeInk`: spends `amount`, clamping at zero; the amount is never refused. */
    method ConsumeInk(amount: int)
      modifies this`ink
      ensures ink == Spend(old(ink), amount)
      ensures amount >= 0 && old(InkInRange()) ==> InkInRange()
    {
      ink := Spend(ink, amount);
    }

    /**
     * `destroy`: stops the regeneration interval if one was started. The
     * handle itself is kept, and calling it again changes nothing more.
     */
    method Destroy()
      requires Valid()
      modifies this`intervalActive
      ensures Valid() && !intervalActive
    {
      if regenerationTimer.Some? {
        intervalActive := false;
      }
    }
  }

  /**
   * A late authoritative value wins over local spending and regeneration:
   * spend 100 of a full budget, tick once, then receive 140.
   */
  method LateNotificationWins(freshId: string, now: string, timer: TimerId) returns (spent: int, ticked: int, final: int)
    requires freshId != ""
    ensures spent == MAX_INK - 100 && ticked == MAX_INK - 99 && final == 140
  {
    var store := new UserStore();
    var stored := StoredUser(None, None, None);
    var row := UserRow(freshId, MAX_INK, now, now);
    var _, _ := store.Initialize(stored, freshId, now, UpsertReturned(Some(row)), timer);
    store.ConsumeInk(100);
    spent := store.ink;
    var _ := store.RegenerationTick(now);
    ticked := store.ink;
    store.OnInkChanged(140);
    final := store.ink;
  }
}
