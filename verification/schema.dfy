/** The record shapes of the seven tables (users, protocols, protocol check-ins, biometrics,
    achievements, forum posts, forum comments), the shapes a caller supplies to create one,
    and the partial updates ("patches") that `updateUser` and `updateProtocol` merge in.
    Timestamps are integer milliseconds; an absent optional field is `None`. */
module Schema {
  import opened Collections

  const HOUR: int := 3_600_000
  /** A day is taken as a fixed 24 hours. */
  const DAY: int := 86_400_000

  datatype User = User(
    id: int,
    username: string,
    password: string,
    firstName: Option<string>,
    lastName: Option<string>,
    email: Option<string>,
    biohackScore: Option<int>,
    currentStreak: Option<int>,
    lastCheckIn: Option<int>,
    createdAt: int)

  datatype InsertUser = InsertUser(
    username: string,
    password: string,
    firstName: Option<string>,
    lastName: Option<string>,
    email: Option<string>)

  /** A `Partial<User>`: each present field overwrites the stored one. */
  datatype UserPatch = UserPatch(
    username: Option<string>,
    password: Option<string>,
    firstName: Option<string>,
    lastName: Option<string>,
    email: Option<string>,
    biohackScore: Option<int>,
    currentStreak: Option<int>,
    lastCheckIn: Option<int>)

  const EmptyUserPatch := UserPatch(None, None, None, None, None, None, None, None)

  datatype Protocol = Protocol(
    id: int,
    userId: int,
    name: string,
    description: Option<string>,
    duration: int,
    currentDay: int,
    isCompleted: bool,
    isActive: bool,
    createdAt: int)

  datatype InsertProtocol = InsertProtocol(
    userId: int,
    name: string,
    description: Option<string>,
    duration: int)

  /** A `Partial<Protocol>`: each present field overwrites the stored one. */
  datatype ProtocolPatch = ProtocolPatch(
    userId: Option<int>,
    name: Option<string>,
    description: Option<string>,
    duration: Option<int>,
    currentDay: Option<int>,
    isCompleted: Option<bool>,
    isActive: Option<bool>)

  const EmptyProtocolPatch := ProtocolPatch(None, None, None, None, None, None, None)

  datatype ProtocolCheckIn = ProtocolCheckIn(
    id: int,
    protocolId: int,
    userId: int,
    checkInDate: int,
    notes: Option<string>)

  datatype InsertProtocolCheckIn = InsertProtocolCheckIn(
    protocolId: int,
    userId: int,
    notes: Option<string>)

  /** The five self-reported metrics of one biometric entry, each an integer or absent. */
  datatype Readings = Readings(
    sleepQuality: Option<int>,
    energyLevel: Option<int>,
    stressLevel: Option<int>,
    focusLevel: Option<int>,
    moodLevel: Option<int>)

  datatype Biometric = Biometric(
    id: int,
    userId: int,
    date: int,
    readings: Readings,
    notes: Option<string>)

  datatype InsertBiometric = InsertBiometric(
    userId: int,
    readings: Readings,
    notes: Option<string>)

  /** A nullable integer column as it arrives in a JSON body: a number, an explicit `null`, or a
      field left out, which reads as `undefined`. */
  datatype JsonInt = Number(n: int) | Null | Undefined

  datatype Achievement = Achievement(
    id: int,
    userId: int,
    name: string,
    description: Option<string>,
    points: JsonInt,
    completedAt: int)

  datatype InsertAchievement = InsertAchievement(
    userId: int,
    name: string,
    description: Option<string>,
    points: JsonInt)

  datatype ForumPost = ForumPost(
    id: int,
    userId: int,
    title: string,
    content: string,
    category: string,
    commentCount: int,
    createdAt: int)

  datatype InsertForumPost = InsertForumPost(
    userId: int,
    title: string,
    content: string,
    category: string)

  datatype ForumComment = ForumComment(
    id: int,
    postId: int,
    userId: int,
    content: string,
    createdAt: int)

  datatype InsertForumComment = InsertForumComment(
    postId: int,
    userId: int,
    content: string)

  /** `{ ...user, ...patch }`. */
  function PatchUser(u: User, p: UserPatch): (r: User)
    ensures r.id == u.id && r.createdAt == u.createdAt
    ensures p == EmptyUserPatch ==> r == u
  {
    User(
      u.id,
      if p.username.Some? then p.username.value else u.username,
      if p.password.Some? then p.password.value else u.password,
      if p.firstName.Some? then p.firstName else u.firstName,
      if p.lastName.Some? then p.lastName else u.lastName,
      if p.email.Some? then p.email else u.email,
      if p.biohackScore.Some? then p.biohackScore else u.biohackScore,
      if p.currentStreak.Some? then p.currentStreak else u.currentStreak,
      if p.lastCheckIn.Some? then p.lastCheckIn else u.lastCheckIn,
      u.createdAt)
  }

  /** `{ ...protocol, ...patch }`. */
  function PatchProtocol(q: Protocol, p: ProtocolPatch): (r: Protocol)
    ensures r.id == q.id && r.createdAt == q.createdAt
    ensures p == EmptyProtocolPatch ==> r == q
  {
    Protocol(
      q.id,
      if p.userId.Some? then p.userId.value else q.userId,
      if p.name.Some? then p.name.value else q.name,
      if p.description.Some? then p.description else q.description,
      if p.duration.Some? then p.duration.value else q.duration,
      if p.currentDay.Some? then p.currentDay.value else q.currentDay,
      if p.isCompleted.Some? then p.isCompleted.value else q.isCompleted,
      if p.isActive.Some? then p.isActive.value else q.isActive,
      q.createdAt)
  }

  /** A spread merge is idempotent, the empty patch changes nothing, and the id is kept. */
  lemma PatchUserLaws(u: User, p: UserPatch)
    ensures PatchUser(PatchUser(u, p), p) == PatchUser(u, p)
    ensures PatchUser(u, EmptyUserPatch) == u
    ensures PatchUser(u, p).id == u.id
  {
  }

  lemma PatchProtocolLaws(q: Protocol, p: ProtocolPatch)
    ensures PatchProtocol(PatchProtocol(q, p), p) == PatchProtocol(q, p)
    ensures PatchProtocol(q, EmptyProtocolPatch) == q
    ensures PatchProtocol(q, p).id == q.id
  {
  }

  /** A protocol check-in's effect on the protocol: one day further, and completed once that
      day is past the duration. The server store and the mock apply the same rule. */
  function NextDay(p: Protocol): (q: Protocol)
    ensures q.id == p.id && q.currentDay == p.currentDay + 1
    ensures q.isCompleted <==> q.currentDay > p.duration
    ensures q == p.(currentDay := q.currentDay, isCompleted := q.isCompleted)
  {
    p.(currentDay := p.currentDay + 1, isCompleted := p.currentDay + 1 > p.duration)
  }

  // Keys for lookups and for the sort comparators of the read operations.
  function UserId(u: User): int { u.id }
  function ProtocolId(p: Protocol): int { p.id }
  function CheckInId(c: ProtocolCheckIn): int { c.id }
  function BiometricId(b: Biometric): int { b.id }
  function AchievementId(a: Achievement): int { a.id }
  function ForumPostId(p: ForumPost): int { p.id }
  function ForumCommentId(c: ForumComment): int { c.id }

  function BiometricDate(b: Biometric): int { b.date }
  /** Comparator key of a newest-first sort `(a, b) => b.date - a.date`. */
  function BiometricDateDesc(b: Biometric): int { -b.date }
  function CheckInDateDesc(c: ProtocolCheckIn): int { -c.checkInDate }
  function CompletedAtDesc(a: Achievement): int { -a.completedAt }
  function PostCreatedAtDesc(p: ForumPost): int { -p.createdAt }
  function CommentCreatedAt(c: ForumComment): int { c.createdAt }
}
