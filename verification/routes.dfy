/** The part of the HTTP layer that decides something: the `/api/check-in` handler, which
    stores a biometric entry and then moves the user's streak on according to the time since
    the previous check-in, and the `days` default of `/api/biometrics/recent`. */
module Routes {
  import opened Collections
  import opened JsBuiltins
  import opened Schema
  import opened Score
  import opened Storage

  /** A gap of more than this since the last check-in breaks the streak. */
  const STREAK_RESET: int := 48 * HOUR
  /** A gap of more than this (and at most `STREAK_RESET`) continues the streak. */
  const STREAK_CONTINUE: int := 20 * HOUR

  /** The streak the handler writes: 1 on a first check-in or after a gap of more than 48
      hours, one more than the stored streak (absent counting as 0) after more than 20 hours,
      and the stored streak unchanged after 20 hours or less. */
  function NextStreak(lastCheckIn: Option<int>, streak: Option<int>, now: int): (r: int)
    ensures lastCheckIn.None? ==> r == 1
    ensures lastCheckIn.Some? && now - lastCheckIn.value > 48 * HOUR ==> r == 1
    ensures lastCheckIn.Some? && 20 * HOUR < now - lastCheckIn.value <= 48 * HOUR ==> r == Or0(streak) + 1
    ensures lastCheckIn.Some? && now - lastCheckIn.value <= 20 * HOUR ==> r == Or0(streak)
  {
    if lastCheckIn.None? || now - lastCheckIn.value > STREAK_RESET then 1
    else if now - lastCheckIn.value > STREAK_CONTINUE then Or0(streak) + 1
    else Or0(streak)
  }

  /** The state a run of check-ins leaves behind: the last check-in time and the streak. */
  datatype StreakState = StreakState(lastCheckIn: Option<int>, streak: Option<int>)

  /** The state after checking in at each of `times` in turn, starting from `s`. */
  function AfterCheckIns(s: StreakState, times: seq<int>): StreakState
    decreases |times|
  {
    if times == [] then s
    else
      var t := times[0];
      AfterCheckIns(StreakState(Some(t), Some(NextStreak(s.lastCheckIn, s.streak, t))), times[1..])
  }

  /** A check-in adds at most one to the streak and never makes it negative, so `k` check-ins
      raise it by at most `k`; after any check-in a streak is recorded. */
  lemma {:induction false} StreakGrowsByAtMostOnePerCheckIn(s: StreakState, times: seq<int>)
    requires Or0(s.streak) >= 0
    ensures times != [] ==> AfterCheckIns(s, times).streak.Some?
    ensures Or0(AfterCheckIns(s, times).streak) <= Or0(s.streak) + |times|
    ensures Or0(AfterCheckIns(s, times).streak) >= 0
    decreases |times|
  {
    if times != [] {
      var t := times[0];
      var n := NextStreak(s.lastCheckIn, s.streak, t);
      StreakGrowsByAtMostOnePerCheckIn(StreakState(Some(t), Some(n)), times[1..]);
    }
  }

  /** Starting with no history, the streak stays between 1 and the number of check-ins. */
  lemma StreakFromNoHistory(times: seq<int>)
    requires |times| >= 1
    ensures 1 <= Or0(AfterCheckIns(StreakState(None, None), times).streak) <= |times|
  {
    var t := times[0];
    var s1 := StreakState(Some(t), Some(1));
    assert AfterCheckIns(StreakState(None, None), times) == AfterCheckIns(s1, times[1..]);
    StreakAtLeastOne(s1, times[1..]);
    StreakGrowsByAtMostOnePerCheckIn(s1, times[1..]);
  }

  /** Once the streak is at least 1 it never drops below 1. */
  lemma {:induction false} StreakAtLeastOne(s: StreakState, times: seq<int>)
    requires Or0(s.streak) >= 1
    ensures Or0(AfterCheckIns(s, times).streak) >= 1
    decreases |times|
  {
    if times != [] {
      var t := times[0];
      StreakAtLeastOne(StreakState(Some(t), Some(NextStreak(s.lastCheckIn, s.streak, t))), times[1..]);
    }
  }

  /** A first check-in, one 10 hours later, one 25 hours after that and one 50 hours after
      that give the streaks 1, 1, 2 and 1. */
  lemma StreakScenario(t0: int)
    ensures var s1 := AfterCheckIns(StreakState(None, None), [t0]);
      s1.streak == Some(1)
    ensures var s2 := AfterCheckIns(StreakState(None, None), [t0, t0 + 10 * HOUR]);
      s2.streak == Some(1)
    ensures var s3 := AfterCheckIns(StreakState(None, None), [t0, t0 + 10 * HOUR, t0 + 35 * HOUR]);
      s3.streak == Some(2)
    ensures var s4 := AfterCheckIns(StreakState(None, None), [t0, t0 + 10 * HOUR, t0 + 35 * HOUR, t0 + 85 * HOUR]);
      s4.streak == Some(1) && s4.lastCheckIn == Some(t0 + 85 * HOUR)
  {
    var a := StreakState(Some(t0), Some(1));
    var b := StreakState(Some(t0 + 10 * HOUR), Some(1));
    var c := StreakState(Some(t0 + 35 * HOUR), Some(2));
    var d := StreakState(Some(t0 + 85 * HOUR), Some(1));
    assert AfterCheckIns(d, []) == d;
    assert AfterCheckIns(c, [t0 + 85 * HOUR]) == d;
    assert AfterCheckIns(b, [t0 + 35 * HOUR, t0 + 85 * HOUR]) == d by {
      assert [t0 + 35 * HOUR, t0 + 85 * HOUR][1..] == [t0 + 85 * HOUR];
    }
    assert AfterCheckIns(a, [t0 + 10 * HOUR, t0 + 35 * HOUR, t0 + 85 * HOUR]) == d by {
      assert [t0 + 10 * HOUR, t0 + 35 * HOUR, t0 + 85 * HOUR][1..] == [t0 + 35 * HOUR, t0 + 85 * HOUR];
    }
    assert [t0, t0 + 10 * HOUR, t0 + 35 * HOUR, t0 + 85 * HOUR][1..] == [t0 + 10 * HOUR, t0 + 35 * HOUR, t0 + 85 * HOUR];
    assert AfterCheckIns(a, [t0 + 10 * HOUR, t0 + 35 * HOUR]) == c by {
      assert [t0 + 10 * HOUR, t0 + 35 * HOUR][1..] == [t0 + 35 * HOUR];
      assert AfterCheckIns(c, []) == c;
    }
    assert [t0, t0 + 10 * HOUR, t0 + 35 * HOUR][1..] == [t0 + 10 * HOUR, t0 + 35 * HOUR];
    assert AfterCheckIns(a, [t0 + 10 * HOUR]) == b by {
      assert AfterCheckIns(b, []) == b;
    }
    assert [t0, t0 + 10 * HOUR][1..] == [t0 + 10 * HOUR];
  }

  /** `parseInt(req.query.days) || 7`: an absent, unparseable or zero `days` means 7. */
  function DaysOrDefault(query: Option<string>): (r: int)
    ensures r != 0
    ensures query.None? ==> r == 7
    ensures query.Some? && (ParseInt(query.value).None? || ParseInt(query.value).value == 0) ==> r == 7
    ensures query.Some? && ParseInt(query.value).Some? && ParseInt(query.value).value != 0 ==>
      r == ParseInt(query.value).value
  {
    if query.None? then 7
    else match ParseInt(query.value)
      case None => 7
      case Some(d) => if d == 0 then 7 else d
  }

  /** A `days` written as a decimal number is read back as that number, zero aside. */
  lemma DaysRoundTrip(n: nat)
    ensures DaysOrDefault(Some(NatToString(n))) == (if n == 0 then 7 else n)
    ensures n > 0 ==> DaysOrDefault(Some("-" + NatToString(n))) == -(n as int)
  {
    ParseIntOfNatToString(n);
  }

  /** The metric fields of a check-in request, as the schema has parsed them. */
  datatype BiometricsBody = BiometricsBody(readings: Readings, notes: Option<string>)

  /** The body of `POST /api/check-in`; `None` is an absent field. */
  datatype CheckInRequest = CheckInRequest(userId: Option<int>, biometrics: Option<BiometricsBody>)

  datatype CheckInResponse = MissingFields | CheckedIn(biometric: Biometric)

  /** `!userId || !biometrics` is false: both fields are present and the id is not 0. */
  predicate Accepted(req: CheckInRequest)
  {
    req.userId.Some? && req.userId.value != 0 && req.biometrics.Some?
  }

  /** The user a check-in leaves behind: the score the biometric entry recomputed, the next
      streak, and the check-in time. */
  function CheckedInUser(u: User, score: Option<int>, now: int): (r: User)
    ensures r == u.(biohackScore := score, currentStreak := r.currentStreak, lastCheckIn := Some(now))
    ensures r.currentStreak.Some?
    ensures Or0(u.currentStreak) >= 0 ==> 0 <= r.currentStreak.value <= Or0(u.currentStreak) + 1
  {
    u.(biohackScore := score,
       currentStreak := Some(NextStreak(u.lastCheckIn, u.currentStreak, now)),
       lastCheckIn := Some(now))
  }

  /** `POST /api/check-in`. A missing or zero user id, or missing metrics, is refused before
      anything is stored. Otherwise the entry is stored (and the score recomputed) even for an
      unknown user; a known user then gets the next streak and the check-in time, written as
      a patch of those two fields only, so the fresh score survives. */
  method CheckIn(store: MemStorage, req: CheckInRequest, now: int) returns (resp: CheckInResponse)
    requires store.Valid()
    modifies store`biometrics, store`nextBiometricId, store`users
    ensures store.Valid()
    ensures !Accepted(req) ==> resp == MissingFields && unchanged(store)
    ensures Accepted(req) ==>
      resp == CheckedIn(Biometric(old(store.nextBiometricId), req.userId.value, now,
                                  req.biometrics.value.readings, req.biometrics.value.notes))
    ensures Accepted(req) ==>
      store.biometrics == old(store.biometrics) + [resp.biometric]
      && store.nextBiometricId == old(store.nextBiometricId) + 1
    ensures Accepted(req) && old(store.UserIndex(req.userId.value)).None? ==>
      store.users == old(store.users)
    ensures Accepted(req) && old(store.UserIndex(req.userId.value)).Some? ==>
      var uid := req.userId.value;
      var i := old(store.UserIndex(uid)).value;
      store.users == old(store.users)[i := CheckedInUser(old(store.users)[i],
                                             WindowScore(store.GetRecentBiometrics(uid, 7, now)), now)]
  {
    if !Accepted(req) {
      return MissingFields;
    }
    var entry := StoreCheckIn(store, req.userId.value, req.biometrics.value, now);
    resp := CheckedIn(entry);
  }

  /** An accepted check-in: `createBiometric`, `getUser`, and for a known user `updateUser` with the next streak and the check-in time and nothing else. */
  method StoreCheckIn(store: MemStorage, uid: int, body: BiometricsBody, now: int) returns (entry: Biometric)
    requires store.Valid() && uid != 0
    modifies store`biometrics, store`nextBiometricId, store`users
    ensures store.Valid()
    ensures entry == Biometric(old(store.nextBiometricId), uid, now, body.readings, body.notes)
    ensures store.biometrics == old(store.biometrics) + [entry]
    ensures store.nextBiometricId == old(store.nextBiometricId) + 1
    ensures old(store.UserIndex(uid)).None? ==> store.users == old(store.users)
    ensures old(store.UserIndex(uid)).Some? ==>
      var i := old(store.UserIndex(uid)).value;
      store.users == old(store.users)[i := CheckedInUser(old(store.users)[i],
                                             WindowScore(store.GetRecentBiometrics(uid, 7, now)), now)]
  {
    ghost var found := store.UserIndex(uid);
    ghost var users0 := store.users;
    entry := store.CreateBiometric(InsertBiometric(uid, body.readings, body.notes), now);
    ghost var biometrics1, next1 := store.biometrics, store.nextBiometricId;
    ghost var score := WindowScore(store.GetRecentBiometrics(uid, 7, now));
    RecordCheckIn(store, uid, now, users0, found, score);
    assert store.biometrics == biometrics1 && store.nextBiometricId == next1;
  }

  /** The handler's steps after `createBiometric` (whose effect on the users is described by
      `before`, `found` and `score`): `getUser`, and for a known user `updateUser` with the
      next streak and the check-in time and nothing else. */
  method RecordCheckIn(store: MemStorage, uid: int, now: int,
                       ghost before: seq<User>, ghost found: Option<nat>, ghost score: Option<int>)
    requires store.Valid()
    requires found.None? ==> store.users == before && forall u :: u in before ==> u.id != uid
    requires found.Some? ==>
      found.value < |before| && before[found.value].id == uid
      && store.users == before[found.value := before[found.value].(biohackScore := score)]
    modifies store`users
    ensures store.Valid()
    ensures found.None? ==> store.users == before
    ensures found.Some? ==>
      store.users == before[found.value := CheckedInUser(before[found.value], score, now)]
  {
    ghost var users1 := store.users;
    assert found.Some? ==> users1[found.value].id == uid;
    var user := store.GetUser(uid);
    if user.Some? {
      assert found.Some? by {
        if found.None? {
          assert false;
        }
      }
      ghost var i := found.value;
      UserIndexUnique(store, i, uid);
      assert user.value == users1[i];
      var streak := NextStreak(user.value.lastCheckIn, user.value.currentStreak, now);
      var patch := EmptyUserPatch.(lastCheckIn := Some(now), currentStreak := Some(streak));
      var _ := store.UpdateUser(uid, patch);
      ComposeUserUpdates(before, users1, store.users, i, score, now);
    } else {
      assert found.None?;
    }
  }

  /** The score written by `createBiometric` and the streak written after it make up
      `CheckedInUser`. */
  lemma ComposeUserUpdates(users0: seq<User>, users1: seq<User>, users2: seq<User>, i: nat,
                           score: Option<int>, now: int)
    requires i < |users0| && users1 == users0[i := users0[i].(biohackScore := score)]
    requires var u := users1[i];
      users2 == users1[i := PatchUser(u, EmptyUserPatch.(lastCheckIn := Some(now),
                                                         currentStreak := Some(NextStreak(u.lastCheckIn, u.currentStreak, now))))]
    ensures users2 == users0[i := CheckedInUser(users0[i], score, now)]
  {
  }

  /** Since user ids increase along the table, the user with a given id sits at one index. */
  lemma UserIndexUnique(store: MemStorage, i: nat, uid: int)
    requires store.Valid() && i < |store.users| && store.users[i].id == uid
    ensures store.UserIndex(uid) == Some(i)
  {
  }
}
