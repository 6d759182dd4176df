/** The request router used when the client runs without a server: GET queries are parsed
    and answered from the in-browser mock store by the first URL pattern they contain, and
    the four kinds of POST the client makes are sent to the matching mock operation. */
module QueryClient {
  import opened Collections
  import opened JsBuiltins
  import opened Schema
  import opened Storage
  import opened MockApi

  // Query strings

  /** The text between the first and the second '?', when the URL has a '?'. */
  function QueryString(url: string): (q: Option<string>)
    ensures q.Some? <==> '?' in url
    ensures q.Some? ==> '?' !in q.value
  {
    IncludesChar(url, '?');
    if Includes(url, "?") then
      SplitWithSeparator(url, '?');
      Some(Split(url, '?')[1])
    else None
  }

  /** A URL made of a path, '?', a query and optionally more text after another '?' has
      exactly that query. */
  lemma QueryStringOf(path: string, query: string, rest: Option<string>)
    requires '?' !in path && '?' !in query
    ensures QueryString(path + "?" + query + (if rest.Some? then "?" + rest.value else "")) == Some(query)
  {
    var tail := if rest.Some? then "?" + rest.value else "";
    var url := path + "?" + query + tail;
    assert url == path + ['?'] + (query + tail);
    assert url[|path|] == '?';
    SplitAtFirst(path, '?', query + tail);
    if rest.Some? {
      assert query + tail == query + ['?'] + rest.value;
      SplitAtFirst(query, '?', rest.value);
    } else {
      assert query + tail == query;
      SplitWithoutSeparator(query, '?');
    }
  }

  /** The key of a `key=value` piece: the text before the first '='. */
  function Key(param: string): string
  {
    Split(param, '=')[0]
  }

  /** The value of a `key=value` piece: the text between the first and second '=', or
      `undefined` when there is no '='. */
  function Value(param: string): Option<string>
  {
    var parts := Split(param, '=');
    if |parts| >= 2 then Some(parts[1]) else None
  }

  /** The dictionary built from the '&'-separated pieces, a later piece overwriting an
      earlier one with the same key. */
  function ParamsOf(pieces: seq<string>): map<string, Option<string>>
  {
    if pieces == [] then map[]
    else
      var last := pieces[|pieces| - 1];
      ParamsOf(pieces[..|pieces| - 1])[Key(last) := Value(last)]
  }

  /** The query parameters of a URL. */
  function QueryParams(url: string): map<string, Option<string>>
  {
    match QueryString(url)
    case None => map[]
    case Some(q) => ParamsOf(Split(q, '&'))
  }

  /** The `forEach` of `mockApiRequest` that fills `queryParams`. */
  method ParseQuery(url: string) returns (params: map<string, Option<string>>)
    ensures params == QueryParams(url)
  {
    params := map[];
    IncludesChar(url, '?');
    if Includes(url, "?") {
      SplitWithSeparator(url, '?');
      var queryString := Split(url, '?')[1];
      assert QueryString(url) == Some(queryString);
      var pieces := Split(queryString, '&');
      var i := 0;
      while i < |pieces|
        invariant 0 <= i <= |pieces|
        invariant params == ParamsOf(pieces[..i])
      {
        var parts := Split(pieces[i], '=');
        var value := if |parts| >= 2 then Some(parts[1]) else None;
        assert parts[0] == Key(pieces[i]) && value == Value(pieces[i]);
        ParamsOfStep(pieces, i);
        params := params[parts[0] := value];
        i := i + 1;
      }
      assert pieces[..i] == pieces;
    }
  }

  /** One more piece overwrites its key in the dictionary built so far. */
  lemma ParamsOfStep(pieces: seq<string>, i: nat)
    requires i < |pieces|
    ensures ParamsOf(pieces[..i + 1]) == ParamsOf(pieces[..i])[Key(pieces[i]) := Value(pieces[i])]
  {
    assert pieces[..i + 1][..i] == pieces[..i];
  }

  /** A key is present exactly when some piece has it. */
  lemma {:induction false} ParamsKeys(pieces: seq<string>, k: string)
    ensures k in ParamsOf(pieces) <==> exists i :: 0 <= i < |pieces| && Key(pieces[i]) == k
  {
    if pieces != [] {
      var init := pieces[..|pieces| - 1];
      ParamsKeys(init, k);
      if exists i :: 0 <= i < |init| && Key(init[i]) == k {
        var i :| 0 <= i < |init| && Key(init[i]) == k;
        assert pieces[i] == init[i];
      }
      if exists i :: 0 <= i < |pieces| && Key(pieces[i]) == k {
        var i :| 0 <= i < |pieces| && Key(pieces[i]) == k;
        if i < |init| {
          assert init[i] == pieces[i];
        }
      }
    }
  }

  /** A key takes the value of the last piece that has it. */
  lemma {:induction false} LastDuplicateWins(pieces: seq<string>, j: nat)
    requires j < |pieces|
    requires forall i :: j < i < |pieces| ==> Key(pieces[i]) != Key(pieces[j])
    ensures Key(pieces[j]) in ParamsOf(pieces)
    ensures ParamsOf(pieces)[Key(pieces[j])] == Value(pieces[j])
  {
    if j < |pieces| - 1 {
      var init := pieces[..|pieces| - 1];
      assert init[j] == pieces[j];
      LastDuplicateWins(init, j);
    }
  }

  /** A single `key=value` query with no '=' or '&' inside key or value is read back as it
      was written. */
  lemma SingleParam(k: string, v: string)
    requires '=' !in k && '=' !in v && '&' !in k && '&' !in v
    ensures ParamsOf(Split(k + "=" + v, '&')) == map[k := Some(v)]
  {
    var piece := k + "=" + v;
    assert piece == k + ['='] + v;
    assert forall c :: c in piece ==> c in k || c == '=' || c in v;
    SplitWithoutSeparator(piece, '&');
    SplitAtFirst(k, '=', v);
    SplitWithoutSeparator(v, '=');
    assert [piece][..0] == [];
  }

  // GET dispatch

  const UserPath := "/api/users/1"
  const ActiveProtocolsPath := "/api/protocols/active"
  const RecentBiometricsPath := "/api/biometrics/recent"
  const AchievementsPath := "/api/achievements"
  const ForumPostsPath := "/api/forum-posts"

  /** The patterns of `mockApiRequest`, in the order they are tried. The user pattern is for
      the default user, since the router is always called without a user id. */
  const GetPatterns: seq<string> :=
    [UserPath, ActiveProtocolsPath, RecentBiometricsPath, AchievementsPath, ForumPostsPath]

  datatype GetEndpoint =
    | UserById
    | ActiveProtocols
    | RecentBiometrics(days: int)
    | Achievements
    | PostsByCategory(category: string)
    | AllPosts

  /** Position in `GetPatterns` of the pattern that selects the endpoint. */
  function GetRank(e: GetEndpoint): nat
  {
    match e
    case UserById => 0
    case ActiveProtocols => 1
    case RecentBiometrics(_) => 2
    case Achievements => 3
    case PostsByCategory(_) => 4
    case AllPosts => 4
  }

  /** `queryParams[key]` used as a condition: present, defined and not the empty string. */
  predicate Truthy(params: map<string, Option<string>>, key: string)
  {
    key in params && params[key].Some? && params[key].value != ""
  }

  /** `queryParams.days ? parseInt(queryParams.days) : 30`. A `NaN` from `parseInt` makes the
      later `slice(0, NaN)` take nothing, which a limit of 0 does too. */
  function DaysParam(params: map<string, Option<string>>): (r: int)
    ensures !Truthy(params, "days") ==> r == 30
    ensures Truthy(params, "days") && ParseInt(params["days"].value).Some? ==> r == ParseInt(params["days"].value).value
    ensures Truthy(params, "days") && ParseInt(params["days"].value).None? ==> r == 0
  {
    if Truthy(params, "days") then Or0(ParseInt(params["days"].value)) else 30
  }

  /** The `switch (true)` of `mockApiRequest`, as a search for the first pattern the URL
      contains; a URL containing none is an unhandled endpoint. */
  function RouteGet(url: string, params: map<string, Option<string>>): (r: Result<GetEndpoint>)
    ensures r.Err? <==> forall j :: 0 <= j < |GetPatterns| ==> !Includes(url, GetPatterns[j])
    ensures r.Ok? ==> Includes(url, GetPatterns[GetRank(r.value)])
    ensures r.Ok? ==> forall j :: 0 <= j < GetRank(r.value) ==> !Includes(url, GetPatterns[j])
    ensures r.Err? ==> r.message == "Unhandled mock endpoint: " + url
    ensures r.Ok? && r.value.RecentBiometrics? ==> r.value.days == DaysParam(params)
    ensures r.Ok? && r.value.PostsByCategory? ==>
      Truthy(params, "category") && r.value.category == params["category"].value
    ensures r.Ok? && r.value.AllPosts? ==> !Truthy(params, "category")
  {
    match FindIndex(GetPatterns, (p: string) => Includes(url, p))
    case None => Err("Unhandled mock endpoint: " + url)
    case Some(j) =>
      if j == 0 then Ok(UserById)
      else if j == 1 then Ok(ActiveProtocols)
      else if j == 2 then Ok(RecentBiometrics(DaysParam(params)))
      else if j == 3 then Ok(Achievements)
      else if Truthy(params, "category") then Ok(PostsByCategory(params["category"].value))
      else Ok(AllPosts)
  }

  datatype Json =
    | UserJson(user: User)
    | ProtocolsJson(protocols: seq<Protocol>)
    | BiometricsJson(biometrics: seq<Biometric>)
    | AchievementsJson(achievements: seq<Achievement>)
    | PostsJson(posts: seq<ForumPost>)

  /** What the mock store answers for an endpoint, for the default user. */
  function Answer(state: MockState, e: GetEndpoint): Result<Json>
    reads state
    requires state.Valid()
  {
    match e
    case UserById => Ok(UserJson(state.GetUser(1).value))
    case ActiveProtocols => Ok(ProtocolsJson(state.GetActiveProtocols(1)))
    case RecentBiometrics(days) => Ok(BiometricsJson(state.GetBiometrics(1, days)))
    case Achievements => Ok(AchievementsJson(state.GetAchievements(1)))
    case PostsByCategory(c) => Ok(PostsJson(state.GetForumPostsByCategory(c)))
    case AllPosts => Ok(PostsJson(state.GetForumPosts()))
  }

  /** The answer to a GET of `url`. */
  function RespondGet(state: MockState, url: string): (r: Result<Json>)
    reads state
    requires state.Valid()
    ensures r.Err? <==> forall j :: 0 <= j < |GetPatterns| ==> !Includes(url, GetPatterns[j])
    ensures r.Err? ==> r.message == "Unhandled mock endpoint: " + url
    ensures r.Ok? ==> r == Answer(state, RouteGet(url, QueryParams(url)).value)
  {
    match RouteGet(url, QueryParams(url))
    case Ok(e) => Answer(state, e)
    case Err(m) => Err(m)
  }

  /** `mockApiRequest(url)`: parses the query, then dispatches. */
  method MockApiRequest(state: MockState, url: string) returns (r: Result<Json>)
    requires state.Valid()
    ensures r == RespondGet(state, url)
  {
    var params := ParseQuery(url);
    var route := RouteGet(url, params);
    match route
    case Err(m) => r := Err(m);
    case Ok(e) =>
      match e
      case UserById =>
        var u := state.GetUser(1);
        r := Ok(UserJson(u.value));
      case ActiveProtocols => r := Ok(ProtocolsJson(state.GetActiveProtocols(1)));
      case RecentBiometrics(days) => r := Ok(BiometricsJson(state.GetBiometrics(1, days)));
      case Achievements => r := Ok(AchievementsJson(state.GetAchievements(1)));
      case PostsByCategory(c) => r := Ok(PostsJson(state.GetForumPostsByCategory(c)));
      case AllPosts => r := Ok(PostsJson(state.GetForumPosts()));
  }

  /** The first pattern a URL contains is the one the search finds. */
  lemma FirstMatch(url: string, patterns: seq<string>, j: nat)
    requires j < |patterns| && Includes(url, patterns[j])
    requires forall k :: 0 <= k < j ==> !Includes(url, patterns[k])
    ensures FindIndex(patterns, (p: string) => Includes(url, p)) == Some(j)
  {
  }

  /** The recent-biometrics URL without a query asks for 30 days. */
  lemma RecentWithoutQuery()
    ensures RouteGet(RecentBiometricsPath, QueryParams(RecentBiometricsPath)) == Ok(RecentBiometrics(30))
  {
    RecentPathMatches();
    assert '?' !in RecentBiometricsPath;
    assert QueryParams(RecentBiometricsPath) == map[];
  }

  lemma RecentPathMatches()
    ensures FindIndex(GetPatterns, (p: string) => Includes(RecentBiometricsPath, p)) == Some(2)
  {
    var url := RecentBiometricsPath;
    assert OccursAt(url, url, 0);
    IncludedCharsNot(url, UserPath, 'u');
    IncludedCharsNot(url, ActiveProtocolsPath, 'v');
    FirstMatch(url, GetPatterns, 2);
  }

  /** A character in neither part is not in their concatenation. */
  lemma NotInConcat(a: string, b: string, x: char)
    requires x !in a && x !in b
    ensures x !in a + b
  {
  }

  /** The recent-biometrics URL asking for `n` days. */
  function DaysUrl(n: nat): string
  {
    RecentBiometricsPath + "?" + ("days" + "=" + NatToString(n))
  }

  /** A URL with a single `key=value` query has just that parameter. */
  lemma QueryParamsOfSingle(path: string, k: string, v: string)
    requires '?' !in path
    requires '=' !in k && '=' !in v && '&' !in k && '&' !in v && '?' !in k && '?' !in v
    ensures QueryParams(path + "?" + (k + "=" + v)) == map[k := Some(v)]
  {
    var query := k + "=" + v;
    assert forall c :: c in query ==> c in k || c == '=' || c in v;
    QueryStringOf(path, query, None);
    assert path + "?" + query + "" == path + "?" + query;
    SingleParam(k, v);
  }

  lemma DaysUrlParams(n: nat)
    ensures QueryParams(DaysUrl(n)) == map["days" := Some(NatToString(n))]
  {
    var digits := NatToString(n);
    assert forall c :: c in digits ==> IsDigit(c);
    QueryParamsOfSingle(RecentBiometricsPath, "days", digits);
    assert DaysUrl(n) == RecentBiometricsPath + "?" + ("days" + "=" + digits);
  }

  lemma DaysUrlChars(n: nat)
    ensures 'u' !in DaysUrl(n) && 'v' !in DaysUrl(n)
  {
    var digits := NatToString(n);
    var tail := "?" + ("days" + "=" + digits);
    assert DaysUrl(n) == RecentBiometricsPath + tail;
    assert 'u' !in tail && 'v' !in tail by {
      assert forall c :: c in tail ==> c in "?days=" || c in digits;
    }
    NotInConcat(RecentBiometricsPath, tail, 'u');
    NotInConcat(RecentBiometricsPath, tail, 'v');
  }

  lemma DaysUrlMatches(n: nat)
    ensures FindIndex(GetPatterns, (p: string) => Includes(DaysUrl(n), p)) == Some(2)
  {
    var url := DaysUrl(n);
    DaysUrlChars(n);
    assert url[..|RecentBiometricsPath|] == RecentBiometricsPath;
    assert OccursAt(url, RecentBiometricsPath, 0);
    IncludedCharsNot(url, UserPath, 'u');
    IncludedCharsNot(url, ActiveProtocolsPath, 'v');
    assert GetPatterns[0] == UserPath && GetPatterns[1] == ActiveProtocolsPath;
    assert GetPatterns[2] == RecentBiometricsPath;
    FirstMatch(url, GetPatterns, 2);
  }

  lemma DaysUrlRoute(n: nat)
    ensures RouteGet(DaysUrl(n), QueryParams(DaysUrl(n))) == Ok(RecentBiometrics(n))
  {
    DaysUrlParams(n);
    DaysUrlMatches(n);
    ParseIntOfNatToString(n);
  }

  /** `?days=n` on the recent-biometrics URL asks for `n` days, and the answer is the `n`
      newest entries (all of them when there are fewer). */
  lemma RecentWithDays(state: MockState, n: nat)
    requires state.Valid()
    ensures RespondGet(state, DaysUrl(n)) == Ok(BiometricsJson(state.biometrics[..Min(n, |state.biometrics|)]))
  {
    DaysUrlRoute(n);
  }

  /** Any URL containing the default user's path is answered with the default user, even
      one naming another user whose id starts with 1. */
  lemma OtherUserGetsDefaultUser(state: MockState)
    requires state.Valid()
    ensures RespondGet(state, "/api/users/12") == Ok(UserJson(state.defaultUser))
  {
    assert OccursAt("/api/users/12", UserPath, 0);
  }

  /** The forum-posts URL asking for category `c`. */
  function CategoryUrl(c: string): string
  {
    ForumPostsPath + "?" + ("category" + "=" + c)
  }

  lemma CategoryUrlChar(c: string, x: char)
    requires x !in c && x !in ForumPostsPath + "?category="
    ensures x !in CategoryUrl(c)
  {
    assert CategoryUrl(c) == (ForumPostsPath + "?category=") + c;
    NotInConcat(ForumPostsPath + "?category=", c, x);
  }

  lemma CategoryUrlChars(c: string)
    requires '1' !in c && 'v' !in c && 'b' !in c && 'h' !in c
    ensures var url := CategoryUrl(c); '1' !in url && 'v' !in url && 'b' !in url && 'h' !in url
  {
    CategoryUrlChar(c, '1');
    CategoryUrlChar(c, 'v');
    CategoryUrlChar(c, 'b');
    CategoryUrlChar(c, 'h');
  }

  lemma CategoryUrlIncludesPath(c: string)
    ensures Includes(CategoryUrl(c), ForumPostsPath)
  {
    assert CategoryUrl(c)[..|ForumPostsPath|] == ForumPostsPath;
    assert OccursAt(CategoryUrl(c), ForumPostsPath, 0);
  }

  lemma CategoryUrlMatches(c: string)
    requires '1' !in c && 'v' !in c && 'b' !in c && 'h' !in c
    ensures FindIndex(GetPatterns, (p: string) => Includes(CategoryUrl(c), p)) == Some(4)
  {
    var url := CategoryUrl(c);
    CategoryUrlChars(c);
    CategoryUrlIncludesPath(c);
    IncludedCharsNot(url, UserPath, '1');
    IncludedCharsNot(url, ActiveProtocolsPath, 'v');
    IncludedCharsNot(url, RecentBiometricsPath, 'b');
    IncludedCharsNot(url, AchievementsPath, 'h');
    forall k | 0 <= k < 4 ensures !Includes(url, GetPatterns[k]) {
      if k == 0 {
        assert GetPatterns[k] == UserPath;
      } else if k == 1 {
        assert GetPatterns[k] == ActiveProtocolsPath;
      } else if k == 2 {
        assert GetPatterns[k] == RecentBiometricsPath;
      } else {
        assert GetPatterns[k] == AchievementsPath;
      }
    }
    assert GetPatterns[4] == ForumPostsPath;
    FirstMatch(url, GetPatterns, 4);
  }

  /** The route of a category query: by category, or all posts for an empty category. */
  lemma CategoryUrlRoute(c: string)
    requires '1' !in c && 'v' !in c && 'b' !in c && 'h' !in c
    requires '=' !in c && '&' !in c && '?' !in c
    ensures RouteGet(CategoryUrl(c), QueryParams(CategoryUrl(c))) ==
      if c == "" then Ok(AllPosts) else Ok(PostsByCategory(c))
  {
    QueryParamsOfSingle(ForumPostsPath, "category", c);
    CategoryUrlMatches(c);
    ForumPostsRoute(CategoryUrl(c), QueryParams(CategoryUrl(c)));
  }

  /** A URL whose first matching pattern is the forum-posts one is routed on its category. */
  lemma ForumPostsRoute(url: string, params: map<string, Option<string>>)
    requires FindIndex(GetPatterns, (p: string) => Includes(url, p)) == Some(4)
    ensures RouteGet(url, params) ==
      if Truthy(params, "category") then Ok(PostsByCategory(params["category"].value)) else Ok(AllPosts)
  {
  }

  /** A category query selects the posts of that category. */
  lemma CategoryQuery(state: MockState)
    requires state.Valid()
    ensures RespondGet(state, CategoryUrl("sleep")) == Ok(PostsJson(state.GetForumPostsByCategory("sleep")))
  {
    SleepIsPlain();
    CategoryUrlRoute("sleep");
    RespondOfRoute(state, CategoryUrl("sleep"), PostsByCategory("sleep"));
  }

  lemma SleepIsPlain()
    ensures "sleep" != ""
    ensures '1' !in "sleep" && 'v' !in "sleep" && 'b' !in "sleep" && 'h' !in "sleep"
    ensures '=' !in "sleep" && '&' !in "sleep" && '?' !in "sleep"
  {
    var c := "sleep";
    assert c == ['s', 'l', 'e', 'e', 'p'];
  }

  /** A routed GET is answered by the store's operation for that endpoint. */
  lemma RespondOfRoute(state: MockState, url: string, e: GetEndpoint)
    requires state.Valid() && RouteGet(url, QueryParams(url)) == Ok(e)
    ensures RespondGet(state, url) == Answer(state, e)
  {
  }

  /** An empty category is no category: all posts are returned. */
  lemma EmptyCategoryQuery(state: MockState)
    requires state.Valid()
    ensures RespondGet(state, CategoryUrl("")) == Ok(PostsJson(state.GetForumPosts()))
  {
    CategoryUrlRoute("");
  }

  /** A URL lacking a character of a pattern does not contain that pattern. */
  lemma IncludedCharsNot(s: string, sub: string, c: char)
    requires c in sub && c !in s
    ensures !Includes(s, sub)
  {
    if Includes(s, sub) {
      IncludedChars(s, sub, c);
    }
  }

  // POST dispatch

  /** The POST patterns of `apiRequest`, in the order they are tried. */
  const PostPatterns: seq<string> := ["/api/protocols", "/api/protocol-check-ins", "/api/forum-posts", "/api/check-in"]

  datatype PostEndpoint = CreateProtocolCall | CheckInProtocolCall | CreateForumPostCall | CheckInCall

  function PostRank(e: PostEndpoint): nat
  {
    match e
    case CreateProtocolCall => 0
    case CheckInProtocolCall => 1
    case CreateForumPostCall => 2
    case CheckInCall => 3
  }

  /** The `switch (true)` of `apiRequest`, as a search for the first pattern the URL contains,
      made only for POSTs; anything else is an unhandled request. */
  function RoutePost(verb: string, url: string): (r: Result<PostEndpoint>)
    ensures r.Err? <==> verb != "POST" || forall j :: 0 <= j < |PostPatterns| ==> !Includes(url, PostPatterns[j])
    ensures r.Ok? ==> Includes(url, PostPatterns[PostRank(r.value)])
    ensures r.Ok? ==> forall j :: 0 <= j < PostRank(r.value) ==> !Includes(url, PostPatterns[j])
    ensures r.Err? ==> r.message == "Unhandled mock API request: " + verb + " " + url
  {
    var found := if verb == "POST" then FindIndex(PostPatterns, (p: string) => Includes(url, p)) else None;
    match found
    case None => Err("Unhandled mock API request: " + verb + " " + url)
    case Some(j) =>
      if j == 0 then Ok(CreateProtocolCall)
      else if j == 1 then Ok(CheckInProtocolCall)
      else if j == 2 then Ok(CreateForumPostCall)
      else Ok(CheckInCall)
  }

  /** The body a POST carries. */
  datatype Payload =
    | ProtocolData(protocol: InsertProtocol)
    | ProtocolCheckInData(protocolId: int)
    | ForumPostData(post: InsertForumPost)
    | CheckInData(checkIn: MockCheckIn)

  /** The body has the shape the endpoint reads. */
  predicate Fits(e: PostEndpoint, data: Payload)
  {
    match e
    case CreateProtocolCall => data.ProtocolData?
    case CheckInProtocolCall => data.ProtocolCheckInData?
    case CreateForumPostCall => data.ForumPostData?
    case CheckInCall => data.CheckInData?
  }

  datatype PostJson = ProtocolJson(protocol: Protocol) | ForumPostJson(post: ForumPost) | CheckInJson(message: string, biometric: Biometric)

  /** The stand-in for a `Response`: `ok` and what `json()` resolves to. */
  datatype Response = Response(ok: bool, json: PostJson)

  /** The mock branch of `apiRequest`: the mock operation the URL selects, its result wrapped
      in an `ok` response; an unhandled request, or a failed operation, is an error and
      changes nothing. */
  method ApiRequest(state: MockState, verb: string, url: string, data: Payload, now: int)
    returns (r: Result<Response>)
    requires state.Valid()
    requires RoutePost(verb, url).Ok? ==> Fits(RoutePost(verb, url).value, data)
    modifies state
    ensures state.Valid()
    ensures r.Ok? ==> r.value.ok
    ensures RoutePost(verb, url).Err? ==> r == Err(RoutePost(verb, url).message) && unchanged(state)
    ensures RoutePost(verb, url) == Ok(CreateProtocolCall) ==>
      var p := Protocol(|old(state.protocols)| + 1, data.protocol.userId, data.protocol.name,
                        data.protocol.description, data.protocol.duration, 1, false, true, now);
      && r == Ok(Response(true, ProtocolJson(p)))
      && state.protocols == old(state.protocols) + [p]
      && state.defaultUser == old(state.defaultUser) && state.biometrics == old(state.biometrics)
      && state.achievements == old(state.achievements) && state.forumPosts == old(state.forumPosts)
    ensures RoutePost(verb, url) == Ok(CheckInProtocolCall) ==>
      && (r.Err? <==> ProtocolIndex(old(state.protocols), data.protocolId).None?)
      && (r.Err? ==> r.message == "Protocol not found" && unchanged(state))
    ensures RoutePost(verb, url) == Ok(CheckInProtocolCall) && r.Ok? ==>
      var i := ProtocolIndex(old(state.protocols), data.protocolId).value;
      && state.protocols == old(state.protocols)[i := NextDay(old(state.protocols)[i])]
      && r == Ok(Response(true, ProtocolJson(state.protocols[i])))
      && state.defaultUser == old(state.defaultUser).(currentStreak := Some(Or0(old(state.defaultUser).currentStreak) + 1),
                                                      lastCheckIn := Some(now))
      && state.biometrics == old(state.biometrics)
      && state.achievements == old(state.achievements) && state.forumPosts == old(state.forumPosts)
    ensures RoutePost(verb, url) == Ok(CreateForumPostCall) ==>
      var p := ForumPost(|old(state.forumPosts)| + 1, data.post.userId, data.post.title,
                         data.post.content, data.post.category, 0, now);
      && r == Ok(Response(true, ForumPostJson(p)))
      && state.forumPosts == old(state.forumPosts) + [p]
      && state.defaultUser == old(state.defaultUser) && state.protocols == old(state.protocols)
      && state.biometrics == old(state.biometrics) && state.achievements == old(state.achievements)
    ensures RoutePost(verb, url) == Ok(CheckInCall) ==>
      var b := Biometric(|old(state.biometrics)| + 1, data.checkIn.userId, now, data.checkIn.readings, Some(""));
      && r == Ok(Response(true, CheckInJson("Check-in successful", b)))
      && state.biometrics == [b] + old(state.biometrics)
      && state.defaultUser == MockCheckedInUser(old(state.defaultUser), state.biometrics[..Min(7, |state.biometrics|)], now)
      && state.protocols == old(state.protocols)
      && state.achievements == old(state.achievements) && state.forumPosts == old(state.forumPosts)
  {
    var route := RoutePost(verb, url);
    if route.Err? {
      return Err(route.message);
    }
    match route.value
    case CreateProtocolCall =>
      var p := state.CreateProtocol(data.protocol, now);
      r := Ok(Response(true, ProtocolJson(p)));
    case CheckInProtocolCall =>
      var result := state.CheckInProtocol(data.protocolId, now);
      if result.Err? {
        r := Err(result.message);
      } else {
        r := Ok(Response(true, ProtocolJson(result.value)));
      }
    case CreateForumPostCall =>
      var p := state.CreateForumPost(data.post, now);
      r := Ok(Response(true, ForumPostJson(p)));
    case CheckInCall =>
      var message, b := state.CheckIn(data.checkIn, now);
      r := Ok(Response(true, CheckInJson(message, b)));
  }

  /** A check-in posted to the protocol check-in URL is not taken for a protocol creation:
      that URL does not contain "/api/protocols". */
  lemma ProtocolCheckInRoute()
    ensures RoutePost("POST", "/api/protocol-check-ins") == Ok(CheckInProtocolCall)
  {
    assert OccursAt("/api/protocol-check-ins", "/api/protocol-check-ins", 0);
    var url := "/api/protocol-check-ins";
    var sub := "/api/protocols";
    forall i | 0 <= i <= |url| ensures !OccursAt(url, sub, i) {
      if i + |sub| <= |url| {
        var w := url[i..i + |sub|];
        assert w[0] == url[i] && w[1] == url[i + 1] && w[13] == url[i + 13];
        if i == 0 {
          assert w[13] != sub[13];
        } else if i == 4 {
          assert w[1] != sub[1];
        } else {
          assert w[0] != sub[0];
        }
      }
    }
  }
}
