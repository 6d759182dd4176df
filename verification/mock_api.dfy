/** The mock back end used when the client is served as static files: module-level arrays of
    protocols, biometric entries and forum posts, and a default user, changed in place by the
    mock operations. It re-implements the server's operations with different rules: ids are
    `length + 1`, new entries go to the front, the score window is the first seven entries,
    and the streak always grows. */
module MockApi {
  import opened Collections
  import opened JsBuiltins
  import opened Schema
  import opened Score
  import opened Storage
  import opened Routes

  /** The two sample achievements, completed 2 and 7 days before start-up. */
  function MockAchievements(now: int): (r: seq<Achievement>)
    ensures |r| == 2 && forall k :: 0 <= k < 2 ==> r[k].id == k + 1 && r[k].userId == 1
    ensures r[0].completedAt == now - 2 * DAY && r[1].completedAt == now - 7 * DAY
  {
    [Achievement(1, 1, StreakName, Some(StreakDescription), Number(25), now - 2 * DAY),
     Achievement(2, 1, MasterName, Some(MasterDescription), Number(40), now - 7 * DAY)]
  }

  /** The three sample posts, created 2 hours, 5 hours and 1 day before start-up. */
  function MockForumPosts(now: int): (r: seq<ForumPost>)
    ensures |r| == 3 && forall k :: 0 <= k < 3 ==> r[k].id == k + 1
    ensures r[0].createdAt == now - 2 * HOUR && r[1].createdAt == now - 5 * HOUR && r[2].createdAt == now - DAY
  {
    [ForumPost(1, 1, PostTitle1, PostContent1, CognitiveCategory, 24, now - 2 * HOUR),
     ForumPost(2, 1, PostTitle2, PostContent2, SleepCategory, 18, now - 5 * HOUR),
     ForumPost(3, 1, PostTitle3, PostContent3, NutritionCategory, 32, now - DAY)]
  }

  /** The ids of a list are its positions plus one, as `length + 1` ids give when nothing is
      ever removed. */
  predicate PositionalIds<T>(s: seq<T>, id: T -> int)
  {
    forall k :: 0 <= k < |s| ==> id(s[k]) == k + 1
  }

  /** The biometric ids are distinct and lie in `[1, length]`. */
  predicate FreshIds(s: seq<Biometric>)
  {
    && (forall k :: 0 <= k < |s| ==> 1 <= s[k].id <= |s|)
    && (forall i, j :: 0 <= i < j < |s| ==> s[i].id != s[j].id)
  }

  /** The body of `mockApi.checkIn`. */
  datatype MockCheckIn = MockCheckIn(userId: int, readings: Readings)

  /** The user after a mock check-in: one more streak day whatever the elapsed time, the
      check-in time, and the score of `window`. */
  function MockCheckedInUser(u: User, window: seq<Biometric>, now: int): User
  {
    u.(lastCheckIn := Some(now),
       currentStreak := Some(Or0(u.currentStreak) + 1),
       biohackScore := if |window| > 0 then WindowScore(window) else u.biohackScore)
  }

  class MockState {
    var defaultUser: User
    var protocols: seq<Protocol>
    var biometrics: seq<Biometric>
    var achievements: seq<Achievement>
    var forumPosts: seq<ForumPost>

    ghost predicate Valid()
      reads this
    {
      && defaultUser.id == 1 && defaultUser.currentStreak.Some?
      && PositionalIds(protocols, ProtocolId)
      && PositionalIds(forumPosts, ForumPostId)
      && FreshIds(biometrics)
    }

    /** The sample data: the default user, the four sample protocols, thirty daily biometric
        entries (newest first) whose metric values are the (random) `samples`, two
        achievements and three posts. */
    constructor (now: int, samples: seq<Readings>)
      requires |samples| == 30
      ensures Valid()
      ensures defaultUser == DefaultUser(now) && protocols == SampleProtocols(now)
      ensures biometrics == SampleBiometrics(now, samples, 30)
      ensures achievements == MockAchievements(now) && forumPosts == MockForumPosts(now)
    {
      defaultUser := DefaultUser(now);
      protocols := SampleProtocols(now);
      var sample: seq<Biometric> := [];
      var i := 0;
      while i < 30
        invariant 0 <= i <= 30
        invariant sample == SampleBiometrics(now, samples, i)
      {
        sample := sample + [Biometric(i + 1, 1, now - i * DAY, samples[i], Some(""))];
        i := i + 1;
      }
      SampleIdsFresh(now, samples, 30);
      biometrics := sample;
      achievements := MockAchievements(now);
      forumPosts := MockForumPosts(now);
    }

    /** `getUser`: a copy of the default user for id 1, "User not found" for any other. */
    function GetUser(id: int): (r: Result<User>)
      reads this`defaultUser
      ensures r.Ok? <==> id == 1
      ensures r.Ok? ==> r.value == defaultUser
      ensures r.Err? ==> r.message == "User not found"
    {
      if id == 1 then Ok(defaultUser) else Err("User not found")
    }

    /** `getActiveProtocols`: for user 1 its active protocols, completed or not; for anyone
        else nothing. */
    function GetActiveProtocols(userId: int): (r: seq<Protocol>)
      reads this
      requires Valid()
      ensures userId != 1 ==> r == []
      ensures userId == 1 ==> forall p :: p in r <==> p in protocols && p.userId == 1 && p.isActive
      ensures multiset(r) <= multiset(protocols)
      ensures IncreasingBy(r, ProtocolId)
    {
      if userId == 1 then
        var keep := (p: Protocol) => p.userId == userId && p.isActive;
        FilterKeepsIncreasing(protocols, keep, ProtocolId);
        Filter(protocols, keep)
      else []
    }

    /** `checkInProtocol`: "Protocol not found" and no change for an unknown id; otherwise the
        protocol moves to its next day and the default user's streak grows by one. */
    method CheckInProtocol(protocolId: int, now: int) returns (r: Result<Protocol>)
      requires Valid()
      modifies this`protocols, this`defaultUser
      ensures Valid()
      ensures ProtocolIndex(old(protocols), protocolId).None? ==>
        r == Err("Protocol not found") && protocols == old(protocols) && defaultUser == old(defaultUser)
      ensures ProtocolIndex(old(protocols), protocolId).Some? ==>
        var i := ProtocolIndex(old(protocols), protocolId).value;
        && protocols == old(protocols)[i := NextDay(old(protocols)[i])]
        && r == Ok(protocols[i])
        && defaultUser == old(defaultUser).(currentStreak := Some(Or0(old(defaultUser).currentStreak) + 1),
                                            lastCheckIn := Some(now))
    {
      var found := ProtocolIndex(protocols, protocolId);
      if found.None? {
        return Err("Protocol not found");
      }
      var i := found.value;
      protocols := protocols[i := NextDay(protocols[i])];
      defaultUser := defaultUser.(currentStreak := Some(Or0(defaultUser.currentStreak) + 1),
                                  lastCheckIn := Some(now));
      r := Ok(protocols[i]);
    }

    /** `createProtocol`: appended with id `length + 1`, on day 1, active, not completed. */
    method CreateProtocol(data: InsertProtocol, now: int) returns (p: Protocol)
      requires Valid()
      modifies this`protocols
      ensures Valid()
      ensures p == Protocol(|old(protocols)| + 1, data.userId, data.name, data.description,
                            data.duration, 1, false, true, now)
      ensures protocols == old(protocols) + [p]
    {
      p := Protocol(|protocols| + 1, data.userId, data.name, data.description, data.duration,
                    1, false, true, now);
      protocols := protocols + [p];
    }

    /** `getBiometrics(userId, days)`: for user 1 the first `days` entries, that is the
        `days` newest; for anyone else nothing. */
    function GetBiometrics(userId: int, days: int): (r: seq<Biometric>)
      reads this`biometrics
      ensures userId != 1 ==> r == []
      ensures userId == 1 ==> |r| <= |biometrics| && r == biometrics[..|r|]
      ensures userId == 1 ==> |r| == SliceEnd(|biometrics|, days)
      ensures userId == 1 && days >= 0 ==> |r| == Min(days, |biometrics|)
      ensures userId == 1 && days < 0 ==> |r| == Max(|biometrics| + days, 0)
    {
      if userId == 1 then biometrics[..SliceEnd(|biometrics|, days)] else []
    }

    /** `getAchievements`: all of them for user 1, none for anyone else. */
    function GetAchievements(userId: int): (r: seq<Achievement>)
      reads this`achievements
      ensures r == if userId == 1 then achievements else []
    {
      if userId == 1 then achievements else []
    }

    /** `getForumPosts`: the posts in insertion order; unlike the server, unsorted. */
    function GetForumPosts(): (r: seq<ForumPost>)
      reads this`forumPosts
      ensures r == forumPosts
    {
      forumPosts
    }

    /** `getForumPostsByCategory`: the posts of one category, in insertion order. */
    function GetForumPostsByCategory(category: string): (r: seq<ForumPost>)
      reads this
      requires Valid()
      ensures forall p :: p in r <==> p in forumPosts && p.category == category
      ensures IncreasingBy(r, ForumPostId)
    {
      var keep := (p: ForumPost) => p.category == category;
      FilterKeepsIncreasing(forumPosts, keep, ForumPostId);
      Filter(forumPosts, keep)
    }

    /** `createForumPost`: appended with id `length + 1` and no comments. */
    method CreateForumPost(data: InsertForumPost, now: int) returns (p: ForumPost)
      requires Valid()
      modifies this`forumPosts
      ensures Valid()
      ensures p == ForumPost(|old(forumPosts)| + 1, data.userId, data.title, data.content,
                             data.category, 0, now)
      ensures forumPosts == old(forumPosts) + [p]
    {
      p := ForumPost(|forumPosts| + 1, data.userId, data.title, data.content, data.category, 0, now);
      forumPosts := forumPosts + [p];
    }

    /** `checkIn`: the entry goes to the front with id `length + 1`; the default user (whatever
        `data.userId` is) gets one more streak day, the check-in time, and the score of the
        first seven entries, which hold the new one. */
    method CheckIn(data: MockCheckIn, now: int) returns (message: string, b: Biometric)
      requires Valid()
      modifies this`biometrics, this`defaultUser
      ensures Valid()
      ensures message == "Check-in successful"
      ensures b == Biometric(|old(biometrics)| + 1, data.userId, now, data.readings, Some(""))
      ensures biometrics == [b] + old(biometrics)
      ensures defaultUser == MockCheckedInUser(old(defaultUser), biometrics[..Min(7, |biometrics|)], now)
      ensures defaultUser.biohackScore.Some?
    {
      b := Biometric(|biometrics| + 1, data.userId, now, data.readings, Some(""));
      FreshIdsPrepend(biometrics, b);
      biometrics := [b] + biometrics;
      defaultUser := defaultUser.(lastCheckIn := Some(now), currentStreak := Some(Or0(defaultUser.currentStreak) + 1));
      var recent := biometrics[..SliceEnd(|biometrics|, 7)];
      if |recent| > 0 {
        var score := ComputeScore(recent);
        defaultUser := defaultUser.(biohackScore := score);
      }
      message := "Check-in successful";
    }
  }

  /** An entry numbered one past the length is new, and keeps the ids distinct. */
  lemma FreshIdsPrepend(s: seq<Biometric>, b: Biometric)
    requires FreshIds(s) && b.id == |s| + 1
    ensures FreshIds([b] + s)
  {
    var t := [b] + s;
    forall i, j | 0 <= i < j < |t| ensures t[i].id != t[j].id {
      if i > 0 {
        assert t[i] == s[i - 1] && t[j] == s[j - 1];
      } else {
        assert t[j] == s[j - 1];
      }
    }
  }

  /** The sample entries are numbered 1, 2, ... in order, so their ids are fresh. */
  lemma SampleIdsFresh(now: int, samples: seq<Readings>, n: nat)
    requires n <= |samples|
    ensures FreshIds(SampleBiometrics(now, samples, n))
  {
  }

  // ----- where the mock and the server agree and differ -----

  /** The mock adds a streak day exactly when the server would add one: after more than 20
      and at most 48 hours, or after a longer gap when the streak was 0 (the server's reset to
      1 then coincides). */
  lemma StreakAgreement(last: int, streak: int, now: int)
    ensures NextStreak(Some(last), Some(streak), now) == streak + 1 <==>
      (20 * HOUR < now - last <= 48 * HOUR) || (now - last > 48 * HOUR && streak == 0)
  {
  }

  /** Two check-ins 10 hours apart: the server keeps the streak, the mock raises it. */
  lemma StreakDiverges(u: User, now: int, window: seq<Biometric>)
    requires u.lastCheckIn == Some(now - 10 * HOUR) && u.currentStreak == Some(5)
    ensures NextStreak(u.lastCheckIn, u.currentStreak, now) == 5
    ensures MockCheckedInUser(u, window, now).currentStreak == Some(6)
  {
  }

  /** Both back ends average the same composite: whenever the mock's window (its first seven
      entries, `biometrics.slice(0, 7)`) holds, in some order, the entries of the server's
      7-day window for the user, a check-in leaves the user with the same score on both. */
  lemma ScoreAgreement(mock: MockState, store: MemStorage, u: User, now: int)
    requires store.BiometricsValid() && mock.biometrics != []
    requires multiset(mock.biometrics[..Min(7, |mock.biometrics|)])
          == multiset(store.GetRecentBiometrics(u.id, 7, now))
    ensures WindowScore(mock.biometrics[..Min(7, |mock.biometrics|)])
         == WindowScore(store.GetRecentBiometrics(u.id, 7, now))
    ensures MockCheckedInUser(u, mock.biometrics[..Min(7, |mock.biometrics|)], now).biohackScore
         == CheckedInUser(u, WindowScore(store.GetRecentBiometrics(u.id, 7, now)), now).biohackScore
  {
    ScorePermutation(mock.biometrics[..Min(7, |mock.biometrics|)], store.GetRecentBiometrics(u.id, 7, now));
  }

  /** The windows can differ: with eight entries in the last 7 days the server averages all
      eight and the mock only the newest seven, and an eighth entry that is lower than the
      rest lowers only the server's score. */
  lemma ScoreDiverges(b: Biometric, low: Biometric)
    requires b.readings == Readings(Some(100), Some(100), Some(0), Some(100), Some(100))
    requires low.readings == Readings(Some(0), Some(0), Some(100), Some(0), Some(0))
    ensures WindowScore([b, b, b, b, b, b, b]) == Some(100)
    ensures WindowScore([b, b, b, b, b, b, b, low]) == Some(88)
  {
    var w7 := [b, b, b, b, b, b, b];
    var w8 := w7 + [low];
    assert MetricSum(b.readings) == 500 && MetricSum(low.readings) == 0;
    WindowSumAppend([b, b, b, b, b, b], [b]);
    WindowSumAppend([b, b, b, b, b], [b]);
    WindowSumAppend([b, b, b, b], [b]);
    WindowSumAppend([b, b, b], [b]);
    WindowSumAppend([b, b], [b]);
    WindowSumAppend([b], [b]);
    assert WindowSum([b]) == 500 by { assert [b][..0] == []; }
    assert [b, b] == [b] + [b];
    assert [b, b, b] == [b, b] + [b];
    assert [b, b, b, b] == [b, b, b] + [b];
    assert [b, b, b, b, b] == [b, b, b, b] + [b];
    assert [b, b, b, b, b, b] == [b, b, b, b, b] + [b];
    assert w7 == [b, b, b, b, b, b] + [b];
    assert WindowSum(w7) == 3500;
    assert w8[..|w8| - 1] == w7 && w8[|w8| - 1] == low;
    assert WindowSum(w8) == WindowSum(w7) + MetricSum(low.readings);
    assert RoundDiv(3500, 35) == 100;
    assert RoundDiv(3500, 40) == 88;
    assert [b, b, b, b, b, b, b, low] == w8;
  }
}
