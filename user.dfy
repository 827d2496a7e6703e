/**
 * The User document (models/User.js): the counters the reward engine updates, the
 * `calculatedLevel` virtual and the pre-save hook that recomputes `level` from `xp`.
 * Credentials, e-mail and login bookkeeping belong to authentication and are not modelled.
 */
module UserModel {
  import opened Wrappers
  import opened Basics
  import JsArrays

  datatype User = User(
    id: ObjectId,
    username: string,
    xp: int,
    level: int,
    totalHabitsCompleted: nat,
    currentTheme: string,
    currentBadge: Option<string>,
    streakProtectionTokens: nat)

  const DEFAULT_THEME: string := "default"

  /** A new document with the schema defaults. */
  function NewUser(id: ObjectId, username: string): (u: User)
    ensures u.xp == 0 && u.level == 1 && u.totalHabitsCompleted == 0
    ensures u.streakProtectionTokens == 0
    ensures u.currentTheme == DEFAULT_THEME && u.currentBadge == None
    ensures u.id == id && u.username == username
  {
    User(id, username, 0, 1, 0, DEFAULT_THEME, None, 0)
  }

  /**
   * The `calculatedLevel` virtual, `floor(xp / 100) + 1` (Dafny's `/` rounds down for a
   * positive divisor): the level whose band of 100 xp contains `xp`.
   */
  function CalculatedLevel(u: User): (level: int)
    ensures (level - 1) * 100 <= u.xp < level * 100
  {
    u.xp / 100 + 1
  }

  /** The document as the pre-save hook leaves it: `level` recomputed from `xp`, whatever it was. */
  function SavedUser(u: User): (saved: User)
    ensures saved == u.(level := saved.level)
    ensures saved.level == CalculatedLevel(u)
  {
    u.(level := u.xp / 100 + 1)
  }

  predicate LevelMatchesXp(u: User) {
    u.level == CalculatedLevel(u)
  }

  /** A user with non-negative xp is at least level 1. */
  lemma LevelAtLeastOne(u: User)
    requires u.xp >= 0
    ensures CalculatedLevel(u) >= 1
  {
  }

  /** More xp never means a lower level. */
  lemma LevelMonotone(u: User, v: User)
    requires u.xp <= v.xp
    ensures CalculatedLevel(u) <= CalculatedLevel(v)
  {
  }

  /** The defaults are consistent: a new user's stored level is its calculated level. */
  lemma NewUserLevelMatches(id: ObjectId, username: string)
    ensures LevelMatchesXp(NewUser(id, username))
  {
  }

  /** The first user with identifier `id`, as `findById` finds it. */
  function UserIndex(us: seq<User>, id: ObjectId): (r: Option<nat>)
    ensures r.Some? ==> r.value < |us| && us[r.value].id == id
    ensures r.Some? ==> forall k :: 0 <= k < r.value ==> us[k].id != id
    ensures r.None? ==> forall k :: 0 <= k < |us| ==> us[k].id != id
  {
    JsArrays.FindIndex(us, (u: User) => u.id == id)
  }

  predicate UniqueIds(us: seq<User>) {
    forall i, j :: 0 <= i < |us| && 0 <= j < |us| && us[i].id == us[j].id ==> i == j
  }
}
