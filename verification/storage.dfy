/** The in-memory server store `MemStorage`: seven tables, each with its own id counter.
    Each table is kept as the sequence of its records in insertion order, which is the
    iteration order of the JavaScript `Map` behind it; since a record's key is its id and ids
    come from an increasing counter, that order is also ascending id order. */
module Storage {
  import opened Collections
  import opened JsBuiltins
  import opened Schema
  import opened Score

  /** A table's ids increase along insertion order, start at 1 and stay below its counter. */
  predicate TableIds<T>(s: seq<T>, id: T -> int, next: int)
  {
    IncreasingBy(s, id) && forall k :: 0 <= k < |s| ==> 1 <= id(s[k]) < next
  }

  lemma TableIdsAppend<T>(s: seq<T>, x: T, id: T -> int, next: int)
    requires TableIds(s, id, next) && id(x) == next && next >= 1
    ensures TableIds(s + [x], id, next + 1)
  {
  }

  lemma TableIdsUpdate<T>(s: seq<T>, i: nat, x: T, id: T -> int, next: int)
    requires TableIds(s, id, next) && i < |s| && id(x) == id(s[i])
    ensures TableIds(s[i := x], id, next)
  {
  }

  lemma {:induction false} TableIdsFilter<T(!new)>(s: seq<T>, p: T -> bool, id: T -> int, next: int)
    requires TableIds(s, id, next)
    ensures TableIds(Filter(s, p), id, next)
  {
    FilterKeepsIncreasing(s, p, id);
    var f := Filter(s, p);
    forall k | 0 <= k < |f| ensures 1 <= id(f[k]) < next {
      assert f[k] in s;
    }
  }

  /** The protocols left by `deleteProtocol(id)`. */
  function WithoutProtocol(s: seq<Protocol>, id: int): seq<Protocol>
  {
    Filter(s, (p: Protocol) => p.id != id)
  }

  /** The seven sample entries the constructor writes: entry `k` is dated `k` days back. */
  function SampleBiometrics(now: int, samples: seq<Readings>, n: nat): (r: seq<Biometric>)
    requires n <= |samples|
    ensures |r| == n
    ensures forall k :: 0 <= k < n ==> r[k] == Biometric(k + 1, 1, now - k * DAY, samples[k], Some(""))
  {
    if n == 0 then []
    else SampleBiometrics(now, samples, n - 1) + [Biometric(n, 1, now - (n - 1) * DAY, samples[n - 1], Some(""))]
  }

  /** The default user: score 78, a 12-day streak, last checked in at start-up. */
  function DefaultUser(now: int): (u: User)
    ensures u.id == 1 && u.username == "johndoe" && u.lastCheckIn == Some(now)
  {
    User(1, "johndoe", "password123", Some("John"), Some("Doe"),
         Some("john@example.com"), Some(78), Some(12), Some(now), now)
  }

  // The sample protocols' and achievements' texts.
  const ColdName: string := "Morning Cold Exposure"
  const ColdDescription: string := "5-minute cold shower every morning to boost immunity and energy"
  const MeditationName: string := "Meditation & Breathwork"
  const MeditationDescription: string := "10-minute meditation and breathwork routine"
  const NootropicName: string := "Nootropic Stack"
  const NootropicDescription: string := "Daily nootropic stack for cognitive enhancement"
  const FastingName: string := "Intermittent Fasting"
  const FastingDescription: string := "16:8 intermittent fasting protocol"
  const StreakName: string := "30-Day Streak"
  const StreakDescription: string := "Completed protocols for 30 days in a row"
  const MasterName: string := "Protocol Master"
  const MasterDescription: string := "Completed 5 protocols successfully"

  /** The four sample protocols of user 1, all active and none completed. */
  function SampleProtocols(now: int): (r: seq<Protocol>)
    ensures |r| == 4 && TableIds(r, ProtocolId, 5)
    ensures forall k :: 0 <= k < 4 ==>
      r[k].id == k + 1 && r[k].userId == 1 && r[k].isActive && !r[k].isCompleted
  {
    [Protocol(1, 1, ColdName, Some(ColdDescription), 30, 8, false, true, now),
     Protocol(2, 1, MeditationName, Some(MeditationDescription), 14, 12, false, true, now),
     Protocol(3, 1, NootropicName, Some(NootropicDescription), 21, 5, false, true, now),
     Protocol(4, 1, FastingName, Some(FastingDescription), 30, 3, false, true, now)]
  }

  /** The two sample achievements; the sample dates move a shared `today` backwards, so the
      second is completed 9 days before start-up. */
  function SampleAchievements(now: int): (r: seq<Achievement>)
    ensures |r| == 2 && TableIds(r, AchievementId, 3)
    ensures r[0].completedAt == now - 2 * DAY && r[1].completedAt == now - 9 * DAY
  {
    var t1 := now - 2 * DAY;
    var t2 := t1 - 7 * DAY;
    [Achievement(1, 1, StreakName, Some(StreakDescription), Number(25), t1),
     Achievement(2, 1, MasterName, Some(MasterDescription), Number(40), t2)]
  }

  // The sample posts' texts.
  const PostTitle1: string := "Anyone tried Lion's Mane + Bacopa stack?"
  const PostTitle2: string := "My experience with sleep tracking rings"
  const PostTitle3: string := "Intermittent fasting results (3 months)"
  const PostContent1: string := "I've been researching cognitive enhancement supplements and this combo keeps coming up. Has anyone here tried it and what were your results?"
  const PostContent2: string := "I've been using a sleep tracking ring for 3 months now and here's what I've learned..."
  const PostContent3: string := "I've been doing intermittent fasting for the last 3 months and wanted to share my results with the community."
  const CognitiveCategory: string := "Cognitive Enhancement"
  const SleepCategory: string := "Sleep Optimization"
  const NutritionCategory: string := "Nutrition"

  /** The three sample posts, continuing the backwards-moving `today`, so each is older than
      the one before. */
  function SampleForumPosts(now: int): (r: seq<ForumPost>)
    ensures |r| == 3 && TableIds(r, ForumPostId, 4)
    ensures r[0].createdAt > r[1].createdAt > r[2].createdAt
    ensures r[0].createdAt == now - 9 * DAY - 2 * HOUR
  {
    var t3 := now - 9 * DAY - 2 * HOUR;
    var t4 := t3 - 5 * HOUR;
    var t5 := t4 - DAY;
    [ForumPost(1, 1, PostTitle1, PostContent1, CognitiveCategory, 24, t3),
     ForumPost(2, 1, PostTitle2, PostContent2, SleepCategory, 18, t4),
     ForumPost(3, 1, PostTitle3, PostContent3, NutritionCategory, 32, t5)]
  }

  /** The position of the protocol with a given id, or none. Both the server store (`Map.get`
      on the id) and the mock (`protocols.find`) look protocols up this way. */
  function ProtocolIndex(protocols: seq<Protocol>, id: int): (r: Option<nat>)
    ensures r.Some? ==> r.value < |protocols| && protocols[r.value].id == id
    ensures r.None? ==> forall k :: 0 <= k < |protocols| ==> protocols[k].id != id
  {
    FindIndex(protocols, (p: Protocol) => p.id == id)
  }

  class MemStorage {
    var users: seq<User>
    var protocols: seq<Protocol>
    var protocolCheckIns: seq<ProtocolCheckIn>
    var biometrics: seq<Biometric>
    var achievements: seq<Achievement>
    var forumPosts: seq<ForumPost>
    var forumComments: seq<ForumComment>

    var nextUserId: int
    var nextProtocolId: int
    var nextCheckInId: int
    var nextBiometricId: int
    var nextAchievementId: int
    var nextForumPostId: int
    var nextForumCommentId: int

    /** Every table's ids increase along insertion order and stay below its counter. The
        per-table predicates below state the same for one table, for the read operations. */
    ghost predicate Valid()
      reads this
    {
      && TableIds(users, UserId, nextUserId)
      && TableIds(protocols, ProtocolId, nextProtocolId)
      && TableIds(protocolCheckIns, CheckInId, nextCheckInId)
      && TableIds(biometrics, BiometricId, nextBiometricId)
      && TableIds(achievements, AchievementId, nextAchievementId)
      && TableIds(forumPosts, ForumPostId, nextForumPostId)
      && TableIds(forumComments, ForumCommentId, nextForumCommentId)
      && nextUserId >= 1 && nextProtocolId >= 1 && nextCheckInId >= 1 && nextBiometricId >= 1
      && nextAchievementId >= 1 && nextForumPostId >= 1 && nextForumCommentId >= 1
    }

    ghost predicate UsersValid()
      reads this`users, this`nextUserId
    {
      TableIds(users, UserId, nextUserId) && nextUserId >= 1
    }

    ghost predicate ProtocolsValid()
      reads this`protocols, this`nextProtocolId
    {
      TableIds(protocols, ProtocolId, nextProtocolId) && nextProtocolId >= 1
    }

    ghost predicate CheckInsValid()
      reads this`protocolCheckIns, this`nextCheckInId
    {
      TableIds(protocolCheckIns, CheckInId, nextCheckInId) && nextCheckInId >= 1
    }

    ghost predicate BiometricsValid()
      reads this`biometrics, this`nextBiometricId
    {
      TableIds(biometrics, BiometricId, nextBiometricId) && nextBiometricId >= 1
    }

    ghost predicate AchievementsValid()
      reads this`achievements, this`nextAchievementId
    {
      TableIds(achievements, AchievementId, nextAchievementId) && nextAchievementId >= 1
    }

    ghost predicate ForumPostsValid()
      reads this`forumPosts, this`nextForumPostId
    {
      TableIds(forumPosts, ForumPostId, nextForumPostId) && nextForumPostId >= 1
    }

    ghost predicate ForumCommentsValid()
      reads this`forumComments, this`nextForumCommentId
    {
      TableIds(forumComments, ForumCommentId, nextForumCommentId) && nextForumCommentId >= 1
    }

    /** The store with its sample data: the default user, four protocols, seven daily
        biometric entries whose metric values are the (random) `samples`, two achievements
        and three forum posts. */
    constructor (now: int, samples: seq<Readings>)
      requires |samples| == 7
      ensures Valid()
      ensures nextUserId == 2 && nextProtocolId == 5 && nextCheckInId == 1 && nextBiometricId == 8
      ensures nextAchievementId == 3 && nextForumPostId == 4 && nextForumCommentId == 1
      ensures users == [DefaultUser(now)]
      ensures protocols == SampleProtocols(now)
      ensures biometrics == SampleBiometrics(now, samples, 7)
      ensures achievements == SampleAchievements(now) && forumPosts == SampleForumPosts(now)
      ensures protocolCheckIns == [] && forumComments == []
    {
      users := [DefaultUser(now)];
      protocols := SampleProtocols(now);
      protocolCheckIns := [];
      var sample: seq<Biometric> := [];
      var i := 0;
      while i < 7
        invariant 0 <= i <= 7
        invariant sample == SampleBiometrics(now, samples, i)
      {
        sample := sample + [Biometric(i + 1, 1, now - i * DAY, samples[i], Some(""))];
        i := i + 1;
      }
      biometrics := sample;
      achievements := SampleAchievements(now);
      forumPosts := SampleForumPosts(now);
      forumComments := [];
      nextUserId, nextProtocolId, nextCheckInId, nextBiometricId := 2, 5, 1, 8;
      nextAchievementId, nextForumPostId, nextForumCommentId := 3, 4, 1;
    }

    // ----- users -----

    function UserIndex(id: int): (r: Option<nat>)
      reads this`users
      ensures r.Some? ==> r.value < |users| && users[r.value].id == id
      ensures r.None? ==> forall k :: 0 <= k < |users| ==> users[k].id != id
    {
      FindIndex(users, (u: User) => u.id == id)
    }

    /** `getUser`: the user with this id, if any. */
    function GetUser(id: int): (r: Option<User>)
      reads this`users
      ensures r.Some? ==> r.value in users && r.value.id == id
      ensures r.None? ==> forall k :: 0 <= k < |users| ==> users[k].id != id
    {
      match UserIndex(id)
      case None => None
      case Some(i) => Some(users[i])
    }

    /** `getUserByUsername`: the first user, in insertion order, with this username. */
    function GetUserByUsername(name: string): (r: Option<User>)
      reads this`users
      ensures r.Some? ==> r.value in users && r.value.username == name
      ensures r.Some? ==> forall k :: 0 <= k < |users| && users[k] != r.value && users[k].username == name ==>
        exists j :: 0 <= j < k && users[j] == r.value
      ensures r.None? ==> forall u :: u in users ==> u.username != name
    {
      match FindIndex(users, (u: User) => u.username == name)
      case None => None
      case Some(i) => Some(users[i])
    }

    /** `createUser`: a new user with score 50, streak 0 and no check-in, whatever the input. */
    method CreateUser(ins: InsertUser, now: int) returns (u: User)
      requires Valid()
      modifies this`users, this`nextUserId
      ensures Valid()
      ensures u == User(old(nextUserId), ins.username, ins.password, ins.firstName, ins.lastName,
                        ins.email, Some(50), Some(0), None, now)
      ensures users == old(users) + [u] && nextUserId == old(nextUserId) + 1
    {
      u := User(nextUserId, ins.username, ins.password, ins.firstName, ins.lastName,
                ins.email, Some(50), Some(0), None, now);
      TableIdsAppend(users, u, UserId, nextUserId);
      users := users + [u];
      nextUserId := nextUserId + 1;
    }

    /** `updateUser`: an unknown id gives `None` and changes nothing; otherwise the patch's
        fields overwrite the stored user's and the rest are kept. */
    method UpdateUser(id: int, patch: UserPatch) returns (r: Option<User>)
      requires Valid()
      modifies this`users
      ensures Valid()
      ensures old(UserIndex(id)).None? ==> r.None? && users == old(users)
      ensures old(UserIndex(id)).Some? ==>
        var i := old(UserIndex(id)).value;
        r == Some(PatchUser(old(users)[i], patch)) && users == old(users)[i := r.value]
    {
      var found := UserIndex(id);
      if found.None? {
        return None;
      }
      var i := found.value;
      var updated := PatchUser(users[i], patch);
      TableIdsUpdate(users, i, updated, UserId, nextUserId);
      users := users[i := updated];
      r := Some(updated);
    }

    // ----- protocols -----

    /** `getProtocols`: the user's protocols, in insertion order. */
    function GetProtocols(userId: int): (r: seq<Protocol>)
      reads this`protocols, this`nextProtocolId
      requires ProtocolsValid()
      ensures forall p :: p in r <==> p in protocols && p.userId == userId
      ensures IncreasingBy(r, ProtocolId)
    {
      var keep := (p: Protocol) => p.userId == userId;
      FilterKeepsIncreasing(protocols, keep, ProtocolId);
      Filter(protocols, keep)
    }

    /** `getActiveProtocols`: the user's protocols that are active and not completed. */
    function GetActiveProtocols(userId: int): (r: seq<Protocol>)
      reads this`protocols, this`nextProtocolId
      requires ProtocolsValid()
      ensures forall p :: p in r <==> p in protocols && p.userId == userId && p.isActive && !p.isCompleted
      ensures IncreasingBy(r, ProtocolId)
    {
      var keep := (p: Protocol) => p.userId == userId && p.isActive && !p.isCompleted;
      FilterKeepsIncreasing(protocols, keep, ProtocolId);
      Filter(protocols, keep)
    }

    /** `getProtocol`. */
    function GetProtocol(id: int): (r: Option<Protocol>)
      reads this`protocols
      ensures r.Some? ==> r.value in protocols && r.value.id == id
      ensures r.None? ==> forall p :: p in protocols ==> p.id != id
    {
      match ProtocolIndex(protocols, id)
      case None => None
      case Some(i) => Some(protocols[i])
    }

    /** `createProtocol`: starts on day 1, not completed, active. */
    method CreateProtocol(ins: InsertProtocol, now: int) returns (p: Protocol)
      requires Valid()
      modifies this`protocols, this`nextProtocolId
      ensures Valid()
      ensures p == Protocol(old(nextProtocolId), ins.userId, ins.name, ins.description, ins.duration,
                            1, false, true, now)
      ensures protocols == old(protocols) + [p] && nextProtocolId == old(nextProtocolId) + 1
    {
      p := Protocol(nextProtocolId, ins.userId, ins.name, ins.description, ins.duration, 1, false, true, now);
      TableIdsAppend(protocols, p, ProtocolId, nextProtocolId);
      protocols := protocols + [p];
      nextProtocolId := nextProtocolId + 1;
    }

    /** `updateProtocol`: an unknown id gives `None` and changes nothing; otherwise the patch's
        fields overwrite the stored protocol's and the rest are kept. */
    method UpdateProtocol(id: int, patch: ProtocolPatch) returns (r: Option<Protocol>)
      requires Valid()
      modifies this`protocols
      ensures Valid()
      ensures ProtocolIndex(old(protocols), id).None? ==> r.None? && protocols == old(protocols)
      ensures ProtocolIndex(old(protocols), id).Some? ==>
        var i := ProtocolIndex(old(protocols), id).value;
        r == Some(PatchProtocol(old(protocols)[i], patch)) && protocols == old(protocols)[i := r.value]
    {
      var found := ProtocolIndex(protocols, id);
      if found.None? {
        return None;
      }
      var i := found.value;
      var updated := PatchProtocol(protocols[i], patch);
      TableIdsUpdate(protocols, i, updated, ProtocolId, nextProtocolId);
      protocols := protocols[i := updated];
      r := Some(updated);
    }

    /** `deleteProtocol`: true exactly when the id was present; afterwards it is absent and
        every other protocol is kept in order. */
    method DeleteProtocol(id: int) returns (deleted: bool)
      requires Valid()
      modifies this`protocols
      ensures Valid()
      ensures deleted <==> ProtocolIndex(old(protocols), id).Some?
      ensures protocols == WithoutProtocol(old(protocols), id)
      ensures ProtocolIndex(protocols, id).None?
    {
      deleted := ProtocolIndex(protocols, id).Some?;
      TableIdsFilter(protocols, (p: Protocol) => p.id != id, ProtocolId, nextProtocolId);
      protocols := WithoutProtocol(protocols, id);
      assert forall k :: 0 <= k < |protocols| ==> protocols[k].id != id by {
        forall k | 0 <= k < |protocols| ensures protocols[k].id != id {
          assert protocols[k] in protocols;
        }
      }
    }

    // ----- protocol check-ins -----

    /** `createProtocolCheckIn`: always stores the check-in. When the protocol exists it moves
        to the next day and is completed once that day is past its duration; when the user
        exists too, the streak grows by exactly one and the check-in time is recorded. */
    method CreateProtocolCheckIn(ins: InsertProtocolCheckIn, now: int) returns (c: ProtocolCheckIn)
      requires Valid()
      modifies this`protocolCheckIns, this`nextCheckInId, this`protocols, this`users
      ensures Valid()
      ensures c == ProtocolCheckIn(old(nextCheckInId), ins.protocolId, ins.userId, now, ins.notes)
      ensures protocolCheckIns == old(protocolCheckIns) + [c]
      ensures nextCheckInId == old(nextCheckInId) + 1
      ensures ProtocolIndex(old(protocols), ins.protocolId).None? ==>
        protocols == old(protocols) && users == old(users)
      ensures ProtocolIndex(old(protocols), ins.protocolId).Some? ==>
        var i := ProtocolIndex(old(protocols), ins.protocolId).value;
        protocols == old(protocols)[i := NextDay(old(protocols)[i])]
      ensures ProtocolIndex(old(protocols), ins.protocolId).Some? && ins.userId != 0 && old(UserIndex(ins.userId)).Some? ==>
        var j := old(UserIndex(ins.userId)).value;
        var u := old(users)[j];
        users == old(users)[j := u.(currentStreak := Some(Or0(u.currentStreak) + 1), lastCheckIn := Some(now))]
      ensures ins.userId == 0 || old(UserIndex(ins.userId)).None? ==> users == old(users)
    {
      c := StoreProtocolCheckIn(ins, now);
      ghost var checkIns1, next1 := protocolCheckIns, nextCheckInId;
      ApplyProtocolCheckIn(ins.protocolId, ins.userId, now);
      assert protocolCheckIns == checkIns1 && nextCheckInId == next1;
    }

    /** The rest of `createProtocolCheckIn`: a known protocol moves to its next day and then a
        non-zero known user gets one more streak day and the check-in time. */
    method ApplyProtocolCheckIn(protocolId: int, userId: int, now: int)
      requires Valid()
      modifies this`protocols, this`users
      ensures Valid()
      ensures ProtocolIndex(old(protocols), protocolId).None? ==> protocols == old(protocols) && users == old(users)
      ensures ProtocolIndex(old(protocols), protocolId).Some? ==>
        var i := ProtocolIndex(old(protocols), protocolId).value;
        protocols == old(protocols)[i := NextDay(old(protocols)[i])]
      ensures ProtocolIndex(old(protocols), protocolId).Some? && userId != 0 && old(UserIndex(userId)).Some? ==>
        var j := old(UserIndex(userId)).value;
        var u := old(users)[j];
        users == old(users)[j := u.(currentStreak := Some(Or0(u.currentStreak) + 1), lastCheckIn := Some(now))]
      ensures userId == 0 || old(UserIndex(userId)).None? ==> users == old(users)
    {
      var found := ProtocolIndex(protocols, protocolId);
      if found.Some? {
        AdvanceProtocol(found.value);
        if userId != 0 {
          var found := UserIndex(userId);
          if found.Some? {
            BumpStreak(found.value, now);
          }
        }
      }
    }

    /** The first step of `createProtocolCheckIn`: the check-in is appended with the next id,
        dated now. */
    method StoreProtocolCheckIn(ins: InsertProtocolCheckIn, now: int) returns (c: ProtocolCheckIn)
      requires Valid()
      modifies this`protocolCheckIns, this`nextCheckInId
      ensures Valid()
      ensures c == ProtocolCheckIn(old(nextCheckInId), ins.protocolId, ins.userId, now, ins.notes)
      ensures protocolCheckIns == old(protocolCheckIns) + [c]
      ensures nextCheckInId == old(nextCheckInId) + 1
    {
      c := ProtocolCheckIn(nextCheckInId, ins.protocolId, ins.userId, now, ins.notes);
      TableIdsAppend(protocolCheckIns, c, CheckInId, nextCheckInId);
      protocolCheckIns := protocolCheckIns + [c];
      nextCheckInId := nextCheckInId + 1;
    }

    /** The protocol at index `i` moves to its next day, through `updateProtocol`. */
    method AdvanceProtocol(i: nat)
      requires Valid() && i < |protocols|
      modifies this`protocols
      ensures Valid()
      ensures protocols == old(protocols)[i := NextDay(old(protocols)[i])]
    {
      var p := protocols[i];
      var currentDay := p.currentDay + 1;
      var isCompleted := currentDay > p.duration;
      var _ := UpdateProtocol(p.id, EmptyProtocolPatch.(currentDay := Some(currentDay),
                                                        isCompleted := Some(isCompleted)));
    }

    /** The user at index `j` gets one more streak day and its check-in time. */
    method BumpStreak(j: nat, now: int)
      requires Valid() && j < |users|
      modifies this`users
      ensures Valid()
      ensures users == old(users)[j := old(users)[j].(currentStreak := Some(Or0(old(users)[j].currentStreak) + 1),
                                                       lastCheckIn := Some(now))]
    {
      var u := users[j];
      var updated := u.(currentStreak := Some(Or0(u.currentStreak) + 1), lastCheckIn := Some(now));
      TableIdsUpdate(users, j, updated, UserId, nextUserId);
      users := users[j := updated];
    }

    /** `getProtocolCheckIns`: the protocol's check-ins, newest first, ties in insertion order. */
    function GetProtocolCheckIns(protocolId: int): (r: seq<ProtocolCheckIn>)
      reads this`protocolCheckIns, this`nextCheckInId
      requires CheckInsValid()
      ensures forall c :: c in r <==> c in protocolCheckIns && c.protocolId == protocolId
      ensures LexIncreasing(r, CheckInDateDesc, CheckInId)
    {
      var keep := (c: ProtocolCheckIn) => c.protocolId == protocolId;
      FilterSorted(protocolCheckIns, keep, CheckInDateDesc, CheckInId)
    }

    // ----- biometrics -----

    /** `createBiometric`: stores the entry dated now. When the user exists its score becomes
        the score of its 7-day window, which always holds the new entry, so the score is
        always recomputed; nothing else about the user changes. */
    method CreateBiometric(ins: InsertBiometric, now: int) returns (b: Biometric)
      requires Valid()
      modifies this`biometrics, this`nextBiometricId, this`users
      ensures Valid()
      ensures b == Biometric(old(nextBiometricId), ins.userId, now, ins.readings, ins.notes)
      ensures biometrics == old(biometrics) + [b] && nextBiometricId == old(nextBiometricId) + 1
      ensures b in GetRecentBiometrics(ins.userId, 7, now)
      ensures ins.userId == 0 || old(UserIndex(ins.userId)).None? ==> users == old(users)
      ensures ins.userId != 0 && old(UserIndex(ins.userId)).Some? ==>
        var i := old(UserIndex(ins.userId)).value;
        WindowScore(GetRecentBiometrics(ins.userId, 7, now)).Some? &&
        users == old(users)[i := old(users)[i].(biohackScore := WindowScore(GetRecentBiometrics(ins.userId, 7, now)))]
    {
      b := StoreBiometric(ins, now);
      if ins.userId != 0 {
        RecomputeScore(ins.userId, now);
      }
    }

    /** The first half of `createBiometric`: the entry is appended with the next id, dated
        now, and so lies in its user's 7-day window. */
    method StoreBiometric(ins: InsertBiometric, now: int) returns (b: Biometric)
      requires Valid()
      modifies this`biometrics, this`nextBiometricId
      ensures Valid()
      ensures b == Biometric(old(nextBiometricId), ins.userId, now, ins.readings, ins.notes)
      ensures biometrics == old(biometrics) + [b] && nextBiometricId == old(nextBiometricId) + 1
      ensures b in GetRecentBiometrics(ins.userId, 7, now)
    {
      b := Biometric(nextBiometricId, ins.userId, now, ins.readings, ins.notes);
      TableIdsAppend(biometrics, b, BiometricId, nextBiometricId);
      biometrics := biometrics + [b];
      nextBiometricId := nextBiometricId + 1;
      assert b in biometrics;
    }

    /** The second half of `createBiometric`: a known user whose 7-day window is not empty
        gets that window's score; nothing else changes. */
    method RecomputeScore(userId: int, now: int)
      requires Valid()
      modifies this`users
      ensures Valid()
      ensures old(UserIndex(userId)).None? || GetRecentBiometrics(userId, 7, now) == [] ==>
        users == old(users)
      ensures old(UserIndex(userId)).Some? && GetRecentBiometrics(userId, 7, now) != [] ==>
        var i := old(UserIndex(userId)).value;
        users == old(users)[i := old(users)[i].(biohackScore := WindowScore(GetRecentBiometrics(userId, 7, now)))]
    {
      var user := GetUser(userId);
      if user.Some? {
        assert user.value.id == userId;
        var recent := GetRecentBiometrics(user.value.id, 7, now);
        if |recent| > 0 {
          var score := ComputeScore(recent);
          var patch := EmptyUserPatch.(biohackScore := score);
          ghost var i := UserIndex(userId).value;
          assert PatchUser(users[i], patch) == users[i].(biohackScore := score);
          var _ := UpdateUser(userId, patch);
        }
      }
    }

    /** `getBiometrics`: all the user's entries, newest first, ties in insertion order. */
    function GetBiometrics(userId: int): (r: seq<Biometric>)
      reads this`biometrics, this`nextBiometricId
      requires BiometricsValid()
      ensures forall b :: b in r <==> b in biometrics && b.userId == userId
      ensures LexIncreasing(r, BiometricDateDesc, BiometricId)
    {
      var keep := (b: Biometric) => b.userId == userId;
      FilterSorted(biometrics, keep, BiometricDateDesc, BiometricId)
    }

    /** `getRecentBiometrics`: the user's entries dated no earlier than `days` days before
        now, oldest first, ties in insertion order. */
    function GetRecentBiometrics(userId: int, days: int, now: int): (r: seq<Biometric>)
      reads this`biometrics, this`nextBiometricId
      requires BiometricsValid()
      ensures forall b :: b in r <==> b in biometrics && b.userId == userId && b.date >= now - days * DAY
      ensures LexIncreasing(r, BiometricDate, BiometricId)
    {
      var keep := (b: Biometric) => b.userId == userId && b.date >= now - days * DAY;
      FilterSorted(biometrics, keep, BiometricDate, BiometricId)
    }

    // ----- achievements -----

    /** `getAchievements`: the user's achievements, most recently completed first. */
    function GetAchievements(userId: int): (r: seq<Achievement>)
      reads this`achievements, this`nextAchievementId
      requires AchievementsValid()
      ensures forall a :: a in r <==> a in achievements && a.userId == userId
      ensures LexIncreasing(r, CompletedAtDesc, AchievementId)
    {
      var keep := (a: Achievement) => a.userId == userId;
      FilterSorted(achievements, keep, CompletedAtDesc, AchievementId)
    }

    /** `createAchievement`: completed now. */
    method CreateAchievement(ins: InsertAchievement, now: int) returns (a: Achievement)
      requires Valid()
      modifies this`achievements, this`nextAchievementId
      ensures Valid()
      ensures a == Achievement(old(nextAchievementId), ins.userId, ins.name, ins.description, ins.points, now)
      ensures achievements == old(achievements) + [a] && nextAchievementId == old(nextAchievementId) + 1
    {
      a := Achievement(nextAchievementId, ins.userId, ins.name, ins.description, ins.points, now);
      TableIdsAppend(achievements, a, AchievementId, nextAchievementId);
      achievements := achievements + [a];
      nextAchievementId := nextAchievementId + 1;
    }

    // ----- forum -----

    function ForumPostIndex(id: int): (r: Option<nat>)
      reads this`forumPosts
      ensures r.Some? ==> r.value < |forumPosts| && forumPosts[r.value].id == id
      ensures r.None? ==> forall k :: 0 <= k < |forumPosts| ==> forumPosts[k].id != id
    {
      FindIndex(forumPosts, (p: ForumPost) => p.id == id)
    }

    /** `getForumPosts`: every post, newest first. */
    function GetForumPosts(): (r: seq<ForumPost>)
      reads this`forumPosts, this`nextForumPostId
      requires ForumPostsValid()
      ensures multiset(r) == multiset(forumPosts)
      ensures LexIncreasing(r, PostCreatedAtDesc, ForumPostId)
    {
      SortByKeyStable(forumPosts, PostCreatedAtDesc, ForumPostId);
      SortByKey(forumPosts, PostCreatedAtDesc)
    }

    /** `getForumPostsByCategory`: the posts of one category, newest first. */
    function GetForumPostsByCategory(category: string): (r: seq<ForumPost>)
      reads this`forumPosts, this`nextForumPostId
      requires ForumPostsValid()
      ensures forall p :: p in r <==> p in forumPosts && p.category == category
      ensures LexIncreasing(r, PostCreatedAtDesc, ForumPostId)
    {
      var keep := (p: ForumPost) => p.category == category;
      FilterSorted(forumPosts, keep, PostCreatedAtDesc, ForumPostId)
    }

    /** `getForumPost`. */
    function GetForumPost(id: int): (r: Option<ForumPost>)
      reads this`forumPosts
      ensures r.Some? ==> r.value in forumPosts && r.value.id == id
      ensures r.None? ==> forall p :: p in forumPosts ==> p.id != id
    {
      match ForumPostIndex(id)
      case None => None
      case Some(i) => Some(forumPosts[i])
    }

    /** `createForumPost`: no comments yet, created now. */
    method CreateForumPost(ins: InsertForumPost, now: int) returns (p: ForumPost)
      requires Valid()
      modifies this`forumPosts, this`nextForumPostId
      ensures Valid()
      ensures p == ForumPost(old(nextForumPostId), ins.userId, ins.title, ins.content, ins.category, 0, now)
      ensures forumPosts == old(forumPosts) + [p] && nextForumPostId == old(nextForumPostId) + 1
    {
      p := ForumPost(nextForumPostId, ins.userId, ins.title, ins.content, ins.category, 0, now);
      TableIdsAppend(forumPosts, p, ForumPostId, nextForumPostId);
      forumPosts := forumPosts + [p];
      nextForumPostId := nextForumPostId + 1;
    }

    /** `getForumComments`: the post's comments, oldest first. */
    function GetForumComments(postId: int): (r: seq<ForumComment>)
      reads this`forumComments, this`nextForumCommentId
      requires ForumCommentsValid()
      ensures forall c :: c in r <==> c in forumComments && c.postId == postId
      ensures LexIncreasing(r, CommentCreatedAt, ForumCommentId)
    {
      var keep := (c: ForumComment) => c.postId == postId;
      FilterSorted(forumComments, keep, CommentCreatedAt, ForumCommentId)
    }

    /** `createForumComment`: stores the comment and, only when the post exists, raises that
        post's comment count by one; no other post changes. */
    method CreateForumComment(ins: InsertForumComment, now: int) returns (c: ForumComment)
      requires Valid()
      modifies this`forumComments, this`nextForumCommentId, this`forumPosts
      ensures Valid()
      ensures c == ForumComment(old(nextForumCommentId), ins.postId, ins.userId, ins.content, now)
      ensures forumComments == old(forumComments) + [c]
      ensures nextForumCommentId == old(nextForumCommentId) + 1
      ensures old(ForumPostIndex(ins.postId)).None? ==> forumPosts == old(forumPosts)
      ensures old(ForumPostIndex(ins.postId)).Some? ==>
        var i := old(ForumPostIndex(ins.postId)).value;
        forumPosts == old(forumPosts)[i := old(forumPosts)[i].(commentCount := old(forumPosts)[i].commentCount + 1)]
    {
      c := ForumComment(nextForumCommentId, ins.postId, ins.userId, ins.content, now);
      TableIdsAppend(forumComments, c, ForumCommentId, nextForumCommentId);
      forumComments := forumComments + [c];
      nextForumCommentId := nextForumCommentId + 1;

      var found := ForumPostIndex(ins.postId);
      if found.Some? {
        var i := found.value;
        var updated := forumPosts[i].(commentCount := forumPosts[i].commentCount + 1);
        TableIdsUpdate(forumPosts, i, updated, ForumPostId, nextForumPostId);
        forumPosts := forumPosts[i := updated];
      }
    }
  }
}
