/**
 * The user records the core reads, and the read-only user store with its two
 * lookups: by username (first match) and by primary key.
 */
module Users {
  import opened Wrappers

  /** A user row: primary key, login name, e-mail, password hash, liveness flag. */
  datatype User = User(id: int, username: string, email: string, hashedPassword: seq<bv8>, active: bool)

  /** The user table, in the order the database returns its rows. */
  type Store = seq<User>

  /** The table's primary key: no two rows share an id. */
  predicate UniqueIds(store: Store)
  {
    forall i, j :: 0 <= i < j < |store| ==> store[i].id != store[j].id
  }

  /** Index of the first row satisfying `p`, if any. */
  function FirstIndex(store: Store, p: User -> bool): (r: Option<nat>)
    ensures r.Some? ==> r.value < |store| && p(store[r.value])
    ensures r.Some? ==> forall j :: 0 <= j < r.value ==> !p(store[j])
    ensures r.None? ==> forall j :: 0 <= j < |store| ==> !p(store[j])
  {
    if |store| == 0 then None
    else if p(store[0]) then Some(0)
    else match FirstIndex(store[1..], p)
      case None => None
      case Some(i) => Some(i + 1)
  }

  /** `select(User).where(User.username == username)` then `.first()`. */
  function FindByUsername(store: Store, username: string): (r: Option<User>)
    ensures r.None? <==> forall u :: u in store ==> u.username != username
    ensures r.Some? ==> exists i :: 0 <= i < |store| && store[i] == r.value && r.value.username == username
                                    && forall j :: 0 <= j < i ==> store[j].username != username
  {
    match FirstIndex(store, (u: User) => u.username == username)
    case None => None
    case Some(i) => Some(store[i])
  }

  /**
   * `session.get(User, id)`: the row whose primary key is `id`, if any. Under
   * the primary-key constraint that row is the only one with this id.
   */
  function FindById(store: Store, id: int): (r: Option<User>)
    ensures r.None? <==> forall u :: u in store ==> u.id != id
    ensures r.Some? ==> r.value in store && r.value.id == id
    ensures UniqueIds(store) ==> forall u :: u in store && u.id == id ==> r == Some(u)
  {
    match FirstIndex(store, (u: User) => u.id == id)
    case None => None
    case Some(i) => Some(store[i])
  }
}
