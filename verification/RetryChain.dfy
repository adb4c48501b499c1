/** The importer's walk along the retries of a registration, and the bound it
    puts on automatic retries. */
module RetryChain {
  import opened Wrappers

  /** "" stands for an absent identity, as in the server's answers. */
  datatype Registration = Registration(id: string, retryOf: string, failed: bool, retryable: bool)

  /** Later entries with the same identity win; entries without one are dropped. */
  function ById(registrations: seq<Registration>): (m: map<string, Registration>)
    ensures "" !in m
    ensures forall id :: id in m ==> m[id].id == id && m[id] in registrations
    decreases |registrations|
  {
    if registrations == [] then map[]
    else
      var last := registrations[|registrations| - 1];
      var rest := ById(registrations[..|registrations| - 1]);
      if last.id == "" then rest else rest[last.id := last]
  }

  ghost predicate LastOf(registrations: seq<Registration>, id: string, i: int) {
    && 0 <= i < |registrations| && registrations[i].id == id
    && forall j :: i < j < |registrations| ==> registrations[j].id != id
  }

  /** An identity is known exactly when some registration carries it, and the
      last one that does counts. */
  lemma {:induction false} LastCounts(registrations: seq<Registration>, id: string) returns (i: int)
    requires id != ""
    ensures id !in ById(registrations) ==> forall j :: 0 <= j < |registrations| ==> registrations[j].id != id
    ensures id in ById(registrations) ==> LastOf(registrations, id, i) && ById(registrations)[id] == registrations[i]
  {
    i := |registrations| - 1;
    if registrations != [] && registrations[i].id != id {
      var rest := registrations[..i];
      var last := i;
      i := LastCounts(rest, id);
      LastStays(registrations, rest, last, id, i);
    }
  }

  lemma LastStays(registrations: seq<Registration>, rest: seq<Registration>, last: int, id: string, i: int)
    requires last == |registrations| - 1 >= 0 && rest == registrations[..last] && registrations[last].id != id
    ensures LastOf(registrations, id, i) <==> LastOf(rest, id, i)
    ensures id in ById(registrations) <==> id in ById(rest)
    ensures id in ById(rest) ==> ById(registrations)[id] == ById(rest)[id]
  {
    assert forall j :: 0 <= j < last ==> rest[j] == registrations[j];
  }

  /** The n-th ancestor named by following retry_of_id, None once a registration
      names no predecessor or the named one is unknown. */
  function Ancestor(byId: map<string, Registration>, start: Registration, n: nat): Option<string> {
    if n == 0 then Some(start.id)
    else
      var current := if n == 1 then Some(start) else Lookup(byId, Ancestor(byId, start, n - 1));
      if current.None? || current.value.retryOf == "" then None else Some(current.value.retryOf)
  }

  function Lookup(byId: map<string, Registration>, id: Option<string>): Option<Registration> {
    if id.Some? && id.value in byId then Some(byId[id.value]) else None
  }

  /** Following retry_of_id from the registration never ends. */
  ghost predicate NeverEnds(byId: map<string, Registration>, start: Registration) {
    forall n :: n >= 0 ==> Ancestor(byId, start, n).Some?
  }

  lemma {:induction false} EndedStaysEnded(byId: map<string, Registration>, start: Registration, n: nat, m: nat)
    requires 1 <= n <= m && Ancestor(byId, start, n).None?
    ensures Ancestor(byId, start, m).None?
    decreases m - n
  {
    if n < m {
      assert Ancestor(byId, start, n + 1).None?;
      EndedStaysEnded(byId, start, n + 1, m);
    }
  }

  /** Once an identity repeats, the walk repeats with it for ever. */
  lemma {:induction false} RepeatsForever(byId: map<string, Registration>, start: Registration, i: nat, j: nat, n: nat)
    requires 1 <= i < j && Ancestor(byId, start, j).Some?
    requires Ancestor(byId, start, i) == Ancestor(byId, start, j)
    ensures Ancestor(byId, start, n).Some?
    ensures Ancestor(byId, start, i + n) == Ancestor(byId, start, j + n)
    decreases n
  {
    if n > 0 {
      RepeatsForever(byId, start, i, j, n - 1);
    }
    if n > j {
      RepeatsForever(byId, start, i, j, n - (j - i));
      RepeatsForever(byId, start, i, j, n - j);
    } else if Ancestor(byId, start, n).None? {
      if n >= 1 { EndedStaysEnded(byId, start, n, j); }
    }
  }

  lemma {:induction false} EarlierNamed(byId: map<string, Registration>, start: Registration, n: nat, m: nat)
    requires 1 <= n <= m && Ancestor(byId, start, m).Some?
    ensures Ancestor(byId, start, n).Some?
  {
    if Ancestor(byId, start, n).None? { EndedStaysEnded(byId, start, n, m); }
  }

  /** The outcome of the walk: None for a chain that never ends, otherwise the
      number of ancestors named. */
  ghost predicate DepthIs(registration: Registration, registrations: seq<Registration>, depth: Option<nat>) {
    var byId := ById(registrations);
    match depth
    case None => NeverEnds(byId, registration)
    case Some(d) => Ancestor(byId, registration, d + 1).None? && forall n :: 1 <= n <= d ==> Ancestor(byId, registration, n).Some?
  }

  lemma DepthUnique(registration: Registration, registrations: seq<Registration>, a: Option<nat>, b: Option<nat>)
    requires DepthIs(registration, registrations, a) && DepthIs(registration, registrations, b)
    ensures a == b
  {
    var byId := ById(registrations);
    if a.Some? && b.Some? {
      var pastA, pastB := Ancestor(byId, registration, a.value + 1), Ancestor(byId, registration, b.value + 1);
    }
  }

  /** The identities named in the first n steps: the walk's visited set. */
  function Named(byId: map<string, Registration>, start: Registration, n: nat): set<string> {
    if n == 0 then {}
    else
      var last := Ancestor(byId, start, n);
      Named(byId, start, n - 1) + if last.Some? then {last.value} else {}
  }

  lemma {:induction false} NamedAt(byId: map<string, Registration>, start: Registration, n: nat, id: string)
    requires id in Named(byId, start, n)
    ensures exists i :: 1 <= i <= n && Ancestor(byId, start, i) == Some(id)
  {
    if Ancestor(byId, start, n) != Some(id) { NamedAt(byId, start, n - 1, id); }
  }

  lemma NamedTwice(byId: map<string, Registration>, start: Registration, n: nat, named: string)
    requires named in Named(byId, start, n) && Ancestor(byId, start, n + 1) == Some(named)
    ensures NeverEnds(byId, start)
  {
    NamedAt(byId, start, n, named);
    var i :| 1 <= i <= n && Ancestor(byId, start, i) == Some(named);
    forall k: nat ensures Ancestor(byId, start, k).Some? { RepeatsForever(byId, start, i, n + 1, k); }
  }

  /** The walk stands at this registration after n steps. */
  predicate Standing(byId: map<string, Registration>, start: Registration, n: nat, current: Registration) {
    if n == 0 then current == start else Lookup(byId, Ancestor(byId, start, n)) == Some(current)
  }

  lemma StepNames(byId: map<string, Registration>, start: Registration, n: nat, current: Registration)
    requires Standing(byId, start, n, current)
    ensures Ancestor(byId, start, n + 1) == if current.retryOf == "" then None else Some(current.retryOf)
    ensures current.retryOf != "" ==> Named(byId, start, n + 1) == Named(byId, start, n) + {current.retryOf}
    ensures current.retryOf != "" && current.retryOf in byId ==> Standing(byId, start, n + 1, byId[current.retryOf])
    ensures current.retryOf != "" && current.retryOf !in byId ==> Ancestor(byId, start, n + 2).None?
  {
  }

  lemma EndsAfter(registration: Registration, registrations: seq<Registration>, n: nat)
    requires Ancestor(ById(registrations), registration, n).Some? && Ancestor(ById(registrations), registration, n + 1).None?
    ensures DepthIs(registration, registrations, Some(n))
  {
    forall k | 1 <= k <= n ensures Ancestor(ById(registrations), registration, k).Some? {
      EarlierNamed(ById(registrations), registration, k, n);
    }
  }

  /** The walk with its visited set: it raises exactly when the chain never
      ends, and otherwise counts the ancestors named. */
  method RetryDepth(registration: Registration, registrations: seq<Registration>) returns (depth: Option<nat>)
    ensures DepthIs(registration, registrations, depth)
  {
    var byId := ById(registrations);
    var current := registration;
    var visited: set<string> := {};
    var n := 0;
    while current.retryOf != ""
      invariant Standing(byId, registration, n, current) && Ancestor(byId, registration, n).Some?
      invariant visited == Named(byId, registration, n) && visited <= byId.Keys
      decreases byId.Keys - visited
    {
      var named := current.retryOf;
      StepNames(byId, registration, n, current);
      if named in visited {
        NamedTwice(byId, registration, n, named);
        return None;
      }
      visited := visited + {named};
      n := n + 1;
      if named !in byId {
        EndsAfter(registration, registrations, n);
        return Some(n);
      }
      current := byId[named];
    }
    StepNames(byId, registration, n, current);
    EndsAfter(registration, registrations, n);
    return Some(n);
  }

  // ------------------------------------------------------ automatic retries

  /** What the server shows after k retries: the registration now current and
      all registrations, or an error that stops the import. */
  datatype Answer = Shows(current: Registration, all: seq<Registration>) | Stops

  datatype Recovery = Recovered(registration: Registration) | Deferred(registration: Registration) | ImportStopped

  /** Each retry names the registration it retries: the chain deepens by one. */
  ghost predicate Deepens(server: nat -> Answer) {
    forall k: nat, d: nat ::
      server(k).Shows? && server(k + 1).Shows? && DepthIs(server(k).current, server(k).all, Some(d)) ==>
        DepthIs(server(k + 1).current, server(k + 1).all, Some(d + 1))
  }

  predicate Retries(server: nat -> Answer, k: nat) {
    server(k).Shows? && server(k).current.failed && server(k).current.retryable
  }

  /** After k answers the chain is k deeper. */
  lemma {:induction false} DeepAfter(server: nat -> Answer, d: nat, k: nat)
    requires Deepens(server) && forall i :: 0 <= i <= k ==> server(i).Shows?
    requires DepthIs(server(0).current, server(0).all, Some(d))
    ensures DepthIs(server(k).current, server(k).all, Some(d + k))
  {
    if k > 0 { DeepAfter(server, d, k - 1); }
  }

  lemma DepthAfter(server: nat -> Answer, d: nat, k: nat, depth: Option<nat>)
    requires Deepens(server) && forall i :: 0 <= i <= k ==> server(i).Shows?
    requires DepthIs(server(0).current, server(0).all, Some(d))
    requires DepthIs(server(k).current, server(k).all, depth)
    ensures depth == Some(d + k)
  {
    DeepAfter(server, d, k);
    DepthUnique(server(k).current, server(k).all, depth, Some(d + k));
  }

  /** From a chain of depth d, at most max - d retries are made; the loop ends
      at the first answer that is not a retryable failure, or when the chain has
      reached the maximum. */
  method Recover(server: nat -> Answer, max: nat, ghost d: nat) returns (outcome: Recovery, retries: nat)
    requires server(0).Shows? && DepthIs(server(0).current, server(0).all, Some(d)) && Deepens(server)
    ensures retries <= if d <= max then max - d else 0
    ensures forall k :: 0 <= k < retries ==> Retries(server, k)
    ensures outcome.ImportStopped? <==> server(retries).Stops?
    ensures outcome.Recovered? ==> outcome.registration == server(retries).current && !server(retries).current.failed
    ensures outcome.Deferred? ==>
              && outcome.registration == server(retries).current && server(retries).current.failed
              && (server(retries).current.retryable ==> max <= d + retries)
  {
    retries := 0;
    var current := server(0).current;
    while current.failed
      invariant server(retries).Shows? && current == server(retries).current
      invariant forall k :: 0 <= k <= retries ==> server(k).Shows?
      invariant forall k :: 0 <= k < retries ==> Retries(server, k)
      invariant retries <= if d <= max then max - d else 0
      decreases max - (d + retries)
    {
      if !current.retryable { return Deferred(current), retries; }
      var depth := RetryDepth(current, server(retries).all);
      DepthAfter(server, d, retries, depth);
      if depth.value >= max { return Deferred(current), retries; }
      assert Retries(server, retries);
      retries := retries + 1;
      if server(retries).Stops? { return ImportStopped, retries; }
      current := server(retries).current;
    }
    return Recovered(current), retries;
  }
}
