/**
 * The cached Kube configuration as `Main` reads it, and the lookups it makes
 * in it: the user whose credential token is used and the cluster whose server
 * URL is used, both recognised by a name that ends with the cluster master.
 */
module KubeConfig {
  import opened Wrappers
  import opened Exceptions
  import opened JavaString

  datatype Cluster = Cluster(name: string, server: string)

  /** A user entry; one that authenticates without a token has None. */
  datatype User = User(name: string, token: Option<string>)

  datatype Config = Config(currentContext: string, clusters: seq<Cluster>, users: seq<User>)

  const ContextDelimiter := '/'

  function NoTokenMessage(master: string): string {
    "There does not appear to be a cached credential token for " + master
  }

  function NoClusterMessage(master: string): string {
    "You do not appear to have cached credentials for " + master
  }

  /** `users[i]` is the first user, in list order, whose name ends with `master`. */
  ghost predicate IsFirstMatchingUser(users: seq<User>, master: string, i: int) {
    && 0 <= i < |users|
    && EndsWith(users[i].name, master)
    && forall j | 0 <= j < i :: !EndsWith(users[j].name, master)
  }

  /** Ordered sequential `filter(...).findFirst()` over the users from index `from` on. */
  function FindFirstUser(users: seq<User>, master: string, from: nat): (r: Option<nat>)
    requires from <= |users|
    requires forall j | 0 <= j < from :: !EndsWith(users[j].name, master)
    ensures r.Some? ==> IsFirstMatchingUser(users, master, r.value)
    ensures r.None? ==> forall j | 0 <= j < |users| :: !EndsWith(users[j].name, master)
    decreases |users| - from
  {
    if from == |users| then None
    else if EndsWith(users[from].name, master) then Some(from)
    else FindFirstUser(users, master, from + 1)
  }

  /**
   * `exctractKubeToken`: the token of the first user whose name ends with
   * `master`; "not logged in" when no user matches; a NullPointerException
   * when that user has no token.
   */
  function ExtractKubeToken(cfg: Config, master: string): (r: Result<string, Exn>)
    ensures r == Failure(NotCurrentlyLoggedIn(NoTokenMessage(master))) <==>
      forall j | 0 <= j < |cfg.users| :: !EndsWith(cfg.users[j].name, master)
    ensures forall i | IsFirstMatchingUser(cfg.users, master, i) ::
      r == (if cfg.users[i].token.Some? then Success(cfg.users[i].token.value) else Failure(NullPointer))
  {
    match FindFirstUser(cfg.users, master, 0)
    case None => Failure(NotCurrentlyLoggedIn(NoTokenMessage(master)))
    case Some(i) =>
      FirstMatchingUserUnique(cfg.users, master, i);
      match cfg.users[i].token
      case None => Failure(NullPointer)
      case Some(t) => Success(t)
  }

  lemma FirstMatchingUserUnique(users: seq<User>, master: string, i: int)
    requires IsFirstMatchingUser(users, master, i)
    ensures forall k :: IsFirstMatchingUser(users, master, k) ==> k == i
  {
  }

  /** A user placed ahead of the others whose name matches decides the token. */
  lemma FirstUserWins(cfg: Config, u: User, master: string)
    requires EndsWith(u.name, master)
    ensures ExtractKubeToken(cfg.(users := [u] + cfg.users), master)
         == (if u.token.Some? then Success(u.token.value) else Failure(NullPointer))
  {
    var users := [u] + cfg.users;
    assert IsFirstMatchingUser(users, master, 0);
    FirstMatchingUserUnique(users, master, 0);
  }

  /** A user placed ahead of the others whose name does not match changes nothing. */
  lemma NonMatchingUserIgnored(cfg: Config, u: User, master: string)
    requires !EndsWith(u.name, master)
    ensures ExtractKubeToken(cfg.(users := [u] + cfg.users), master) == ExtractKubeToken(cfg, master)
  {
    var users := [u] + cfg.users;
    var first := FindFirstUser(cfg.users, master, 0);
    if first.Some? {
      FirstMatchShifts(cfg.users, u, master, first.value);
    } else {
      NoMatchShifts(cfg.users, u, master);
    }
  }

  lemma FirstMatchShifts(users: seq<User>, u: User, master: string, i: int)
    requires !EndsWith(u.name, master) && IsFirstMatchingUser(users, master, i)
    ensures IsFirstMatchingUser([u] + users, master, i + 1)
  {
    var us := [u] + users;
    forall j | 0 <= j < i + 1 ensures !EndsWith(us[j].name, master) {
      if j > 0 { assert us[j] == users[j - 1]; }
    }
  }

  lemma NoMatchShifts(users: seq<User>, u: User, master: string)
    requires !EndsWith(u.name, master)
    requires forall j | 0 <= j < |users| :: !EndsWith(users[j].name, master)
    ensures forall j | 0 <= j < |[u] + users| :: !EndsWith(([u] + users)[j].name, master)
  {
    var us := [u] + users;
    forall j | 0 <= j < |us| ensures !EndsWith(us[j].name, master) {
      if j > 0 { assert us[j] == users[j - 1]; }
    }
  }

  /** Some cluster's name ends with `master`. */
  predicate HasMatchingCluster(clusters: seq<Cluster>, master: string) {
    exists i | 0 <= i < |clusters| :: EndsWith(clusters[i].name, master)
  }
}
