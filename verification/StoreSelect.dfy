/** Choosing a store for a request and for its retries (phxqueue/producer/selector.cpp:197-241). */
module StoreSelect {
  import opened Options
  import opened Rings

  /** `stores` are the pub's stores in ascending order; `ring` and `hashes` were built from stores with a
      positive scale. `hash(retry, n)` is the hash of turn n (random when the uin is 0), `blocked(s, n)`
      whether store s is blocked then. */
  datatype Env = Env(
    stores: seq<int>, ring: map<nat, int>, hashes: map<int, set<nat>>,
    hash: (nat, nat) -> nat, blocked: (int, nat) -> bool, switchStore: bool)

  datatype Selector = Selector(retry: nat, tried: set<int>)

  /** Nothing was tried before the first turn. */
  predicate Valid(s: Selector) { s.retry == 0 ==> s.tried == {} }

  ghost predicate ValidEnv(e: Env) { e.stores != [] && e.ring != map[] }

  predicate Usable(e: Env, tried: set<int>, store: int) {
    store !in tried && store in e.hashes && e.hashes[store] != {}
  }

  // ---------------------------------------------------------------- one turn

  /** Among the untried stores from `i` on, the one whose next point has the smallest hash. */
  ghost function Nearest(e: Env, tried: set<int>, h: nat, i: nat, best: Option<int>): (r: Option<int>)
    requires best.Some? ==> Usable(e, tried, best.value)
    ensures r.Some? ==> Usable(e, tried, r.value) && (r == best || r.value in e.stores)
    ensures best.Some? ==> r.Some?
    ensures r.None? ==> forall k :: i <= k < |e.stores| ==> !Usable(e, tried, e.stores[k])
    decreases |e.stores| - i
  {
    if i >= |e.stores| then best
    else
      var s := e.stores[i];
      if !Usable(e, tried, s) then Nearest(e, tried, h, i + 1, best)
      else if best.None? || Successor(e.hashes[s], h) < Successor(e.hashes[best.value], h)
        then Nearest(e, tried, h, i + 1, Some(s))
      else Nearest(e, tried, h, i + 1, best)
  }

  /** No untried store has a point with a smaller hash. */
  lemma {:induction false} NearestIsNearest(e: Env, tried: set<int>, h: nat, i: nat, best: Option<int>, s: int)
    requires best.Some? ==> Usable(e, tried, best.value)
    requires Usable(e, tried, s) && (best == Some(s) || s in e.stores[if i < |e.stores| then i else |e.stores|..])
    ensures var r := Nearest(e, tried, h, i, best);
      r.Some? && Successor(e.hashes[r.value], h) <= Successor(e.hashes[s], h)
    ensures best.Some? ==>
      Successor(e.hashes[Nearest(e, tried, h, i, best).value], h) <= Successor(e.hashes[best.value], h)
    decreases |e.stores| - i
  {
    if i < |e.stores| {
      var x := e.stores[i];
      assert e.stores[i..] == [x] + e.stores[i + 1..];
      var next := if Usable(e, tried, x)
        && (best.None? || Successor(e.hashes[x], h) < Successor(e.hashes[best.value], h)) then Some(x) else best;
      hide Usable, Successor;
      if s in e.stores[i + 1..] {
        NearestIsNearest(e, tried, h, i + 1, next, s);
      } else {
        assert next.Some?;
        NearestIsNearest(e, tried, h, i + 1, next, next.value);
      }
    }
  }

  /** The hash goes to the ring the first time, or always without switching; later to untried stores. */
  ghost function Candidate(e: Env, s: Selector, n: nat): Option<int>
    requires ValidEnv(e)
  {
    var h := e.hash(s.retry, n);
    if e.switchStore && s.retry > 0 then Nearest(e, s.tried, h, 0, None) else Some(Pick(e.ring, h))
  }

  /** A store, and whether it is the fallback taken when nothing is left to try. */
  datatype Choice = Choice(store: int, fallback: bool)

  // ---------------------------------------------------------------- the whole call

  function Untried(e: Env, s: Selector): set<int> { (set x | x in e.stores) - s.tried }

  lemma TryingShrinks(e: Env, s: Selector, store: int)
    requires store in e.stores && store !in s.tried
    ensures |Untried(e, Selector(s.retry + 1, s.tried + {store}))| < |Untried(e, s)|
  {
    var after := Untried(e, Selector(s.retry + 1, s.tried + {store}));
    assert after == Untried(e, s) - {store};
  }

  /** GetStoreID: it ends whatever is blocked, because every turn that finds a blocked store uses up the
      first turn or an untried store. The last result is the number of the next turn. */
  ghost function Search(e: Env, s: Selector, n: nat): (Selector, Choice, nat)
    requires ValidEnv(e)
    decreases if s.retry == 0 then 1 else 0, |Untried(e, s)|
  {
    var candidate := Candidate(e, s, n);
    if candidate.None? then
      (Selector(s.retry + 1, s.tried), Choice(e.stores[e.hash(s.retry, n) % |e.stores|], true), n + 1)
    else
      var store := candidate.value;
      if !e.switchStore then (Selector(s.retry + 1, s.tried), Choice(store, false), n + 1)
      else
        var s1 := Selector(s.retry + 1, s.tried + {store});
        if !e.blocked(store, n) then (s1, Choice(store, false), n + 1)
        else
          assert s.retry > 0 ==> |Untried(e, s1)| < |Untried(e, s)| by {
            if s.retry > 0 { TryingShrinks(e, s, store); }
          }
          Search(e, s1, n + 1)
  }

  /** One turn of the search. */
  lemma SearchTurns(e: Env, s: Selector, n: nat)
    requires ValidEnv(e)
    ensures var candidate := Candidate(e, s, n);
      Search(e, s, n) ==
        if candidate.None? then
          (Selector(s.retry + 1, s.tried), Choice(e.stores[e.hash(s.retry, n) % |e.stores|], true), n + 1)
        else if !e.switchStore then (Selector(s.retry + 1, s.tried), Choice(candidate.value, false), n + 1)
        else if !e.blocked(candidate.value, n) then
          (Selector(s.retry + 1, s.tried + {candidate.value}), Choice(candidate.value, false), n + 1)
        else Search(e, Selector(s.retry + 1, s.tried + {candidate.value}), n + 1)
  {
  }

  /** The hash lands at point `k`, which decides without switching and, unless its store is blocked, the first
      time. */
  ghost predicate Decides(e: Env, retry: nat, n: nat, k: nat) {
    IsSuccessor(e.ring.Keys, e.hash(retry, n), k) && (e.switchStore ==> retry == 0 && !e.blocked(e.ring[k], n))
  }

  lemma FirstLands(e: Env, s: Selector, n: nat, k: nat)
    requires ValidEnv(e) && Decides(e, s.retry, n, k)
    ensures var (s1, choice, next) := Search(e, s, n); choice == Choice(e.ring[k], false) && next == n + 1
  {
    SuccessorIsUnique(e.ring.Keys, e.hash(s.retry, n), k, Successor(e.ring.Keys, e.hash(s.retry, n)));
  }

  class StoreSelector {
    var retry: nat
    var tried: set<int>

    ghost function State(): Selector reads this { Selector(retry, tried) }

    constructor ()
      ensures State() == Selector(0, {}) && Valid(State())
    {
      retry, tried := 0, {};
    }

    method FindNearest(e: Env, h: nat) returns (store: Option<int>)
      ensures store == Nearest(e, tried, h, 0, None)
    {
      store := None;
      var minHash := 0;
      var i := 0;
      while i < |e.stores|
        invariant 0 <= i <= |e.stores|
        invariant store.Some? ==> Usable(e, tried, store.value) && minHash == Successor(e.hashes[store.value], h)
        invariant Nearest(e, tried, h, i, store) == Nearest(e, tried, h, 0, None)
      {
        var s := e.stores[i];
        if s !in tried && s in e.hashes {
          var found, k := Seek(e.hashes[s], h);
          if found && (store.None? || k < minHash) {
            store := Some(s);
            minHash := k;
          }
        }
        i := i + 1;
      }
    }

    method NextCandidate(e: Env, n: nat) returns (candidate: Option<int>)
      requires ValidEnv(e)
      ensures candidate == Candidate(e, State(), n)
      ensures e.switchStore && retry > 0 && candidate.Some? ==> candidate.value in e.stores && candidate.value !in tried
    {
      var h := e.hash(retry, n);
      if e.switchStore && retry > 0 {
        candidate := FindNearest(e, h);
      } else {
        NotEmptyKeys(e.ring);
        var found, k := Seek(e.ring.Keys, h);
        candidate := Some(e.ring[k]);
      }
    }

    /** One turn of the loop: a choice, or the store that was found blocked is now among the tried ones. */
    method Turn(e: Env, n: nat) returns (choice: Option<Choice>)
      requires ValidEnv(e)
      modifies this
      ensures choice.Some? ==> (State(), choice.value, n + 1) == Search(e, old(State()), n)
      ensures choice.None? ==> Search(e, State(), n + 1) == Search(e, old(State()), n) && retry > 0
      ensures choice.None? && old(retry) > 0 ==> |Untried(e, State())| < |old(Untried(e, State()))|
    {
      hide Search, Candidate, Untried, Usable;
      ghost var s := State();
      SearchTurns(e, s, n);
      var candidate := NextCandidate(e, n);
      var h := e.hash(retry, n);
      retry := retry + 1;
      if candidate.None? { return Some(Choice(e.stores[h % |e.stores|], true)); }
      var store := candidate.value;
      if !e.switchStore { return Some(Choice(store, false)); }
      tried := tried + {store};
      if !e.blocked(store, n) { return Some(Choice(store, false)); }
      if s.retry > 0 { TryingShrinks(e, s, store); }
      return None;
    }

    /** `first` numbers the turns of this call from there on; without a store there is an error. */
    method GetStoreID(e: Env, first: nat) returns (choice: Option<Choice>, next: nat)
      requires e.stores != [] ==> e.ring != map[]
      modifies this
      ensures e.stores == [] ==> choice == None && State() == old(State())
      ensures e.stores != [] ==> choice.Some? && (State(), choice.value, next) == Search(e, old(State()), first)
      ensures e.stores != [] ==>
        forall k :: Decides(e, old(retry), first, k) ==> choice == Some(Choice(e.ring[k], false))
    {
      choice, next := None, first;
      if e.stores == [] { return; }
      forall k | Decides(e, retry, first, k)
        ensures Search(e, State(), first).1 == Choice(e.ring[k], false)
      {
        FirstLands(e, State(), first, k);
      }
      hide Search, Untried, Decides;
      while choice.None?
        invariant choice.None? ==> Search(e, State(), next) == Search(e, old(State()), first)
        invariant choice.Some? ==> (State(), choice.value, next) == Search(e, old(State()), first)
        decreases choice.None?, if retry == 0 then 1 else 0, |Untried(e, State())|
      {
        choice := Turn(e, next);
        next := next + 1;
      }
    }
  }

  // ---------------------------------------------------------------- one call

  lemma CandidateIsUntried(e: Env, s: Selector, n: nat)
    requires ValidEnv(e) && Valid(s) && e.switchStore
    ensures var c := Candidate(e, s, n);
      && (c.Some? ==> c.value !in s.tried && (s.retry > 0 ==> c.value in e.stores))
      && (c.None? ==> s.retry > 0 && forall k :: k in e.stores ==> !Usable(e, s.tried, k))
  {
  }

  /** Turn `n` chooses: the first time the store where the hash lands, later the untried store with the
      smallest next point, as a fallback the store at the hash modulo the number of stores. */
  ghost predicate Rightly(e: Env, retry: nat, tried: set<int>, n: nat, choice: Choice) {
    var h := e.hash(retry, n);
    if choice.fallback then e.stores != [] && choice.store == e.stores[h % |e.stores|]
    else if retry == 0 then exists k :: IsSuccessor(e.ring.Keys, h, k) && choice.store == e.ring[k]
    else
      && Usable(e, tried - {choice.store}, choice.store)
      && forall s :: s in e.stores && Usable(e, tried - {choice.store}, s) ==>
           Successor(e.hashes[choice.store], h) <= Successor(e.hashes[s], h)
  }

  /** The choice is an untried store that is not blocked, or, as a fallback, some store of the pub when
      every store with a point on its list has been tried. */
  ghost predicate Sound(e: Env, s: Selector, n: nat, s1: Selector, choice: Choice, next: nat) {
    && Valid(s1) && s.tried <= s1.tried && s1.retry > s.retry && next > n
    && Rightly(e, s1.retry - 1, s1.tried, next - 1, choice)
    && (!choice.fallback ==> choice.store in s1.tried && choice.store !in s.tried && !e.blocked(choice.store, next - 1))
    && (choice.fallback ==> choice.store in e.stores && forall k :: k in e.stores ==> !Usable(e, s1.tried, k))
  }

  lemma SearchEnds(e: Env, s: Selector, n: nat)
    requires ValidEnv(e) && Valid(s) && e.switchStore
    requires var c := Candidate(e, s, n); c.None? || !e.blocked(c.value, n)
    ensures var (s1, choice, next) := Search(e, s, n); Sound(e, s, n, s1, choice, next)
  {
    var (s1, choice, next) := Search(e, s, n);
    CandidateIsUntried(e, s, n);
    CandidateIsRight(e, s, n);
    if !choice.fallback { assert s1.tried - {choice.store} == s.tried; }
    hide Candidate, Usable, Rightly;
  }

  lemma CandidateIsRight(e: Env, s: Selector, n: nat)
    requires ValidEnv(e) && Valid(s) && e.switchStore
    ensures var c := Candidate(e, s, n);
      c.Some? ==> c.value !in s.tried && Rightly(e, s.retry, s.tried + {c.value}, n, Choice(c.value, false))
  {
    var c, h := Candidate(e, s, n), e.hash(s.retry, n);
    CandidateIsUntried(e, s, n);
    if c.Some? {
      assert s.tried + {c.value} - {c.value} == s.tried;
      if s.retry > 0 {
        forall x | x in e.stores && Usable(e, s.tried, x)
          ensures Successor(e.hashes[c.value], h) <= Successor(e.hashes[x], h)
        {
          assert e.stores[0..] == e.stores;
          NearestIsNearest(e, s.tried, h, 0, None, x);
        }
      }
    }
  }

  lemma SearchGoesOn(e: Env, s: Selector, n: nat)
    requires ValidEnv(e) && Valid(s) && e.switchStore
    requires var c := Candidate(e, s, n); c.Some? && e.blocked(c.value, n)
    ensures Search(e, s, n) == Search(e, Selector(s.retry + 1, s.tried + {Candidate(e, s, n).value}), n + 1)
  {
  }

  /** With switching on, every call ends with a sound choice. */
  lemma {:induction false} SearchFindsUntried(e: Env, s: Selector, n: nat)
    requires ValidEnv(e) && Valid(s) && e.switchStore
    ensures var (s1, choice, next) := Search(e, s, n); Sound(e, s, n, s1, choice, next)
    decreases if s.retry == 0 then 1 else 0, |Untried(e, s)|
  {
    hide Search;
    var candidate := Candidate(e, s, n);
    if candidate.Some? && e.blocked(candidate.value, n) {
      CandidateIsUntried(e, s, n);
      if s.retry > 0 { TryingShrinks(e, s, candidate.value); }
      SearchGoesOn(e, s, n);
      hide Candidate, Untried, Usable;
      SearchFindsUntried(e, Selector(s.retry + 1, s.tried + {candidate.value}), n + 1);
    } else {
      SearchEnds(e, s, n);
    }
  }

  // ---------------------------------------------------------------- successive calls

  /** The choices of `calls` successive calls of one selector. */
  ghost function Calls(e: Env, s: Selector, n: nat, calls: nat): seq<Choice>
    requires ValidEnv(e)
    decreases calls
  {
    if calls == 0 then []
    else var (s1, choice, next) := Search(e, s, n); [choice] + Calls(e, s1, next, calls - 1)
  }

  lemma {:induction false} CallsAvoidTried(e: Env, s: Selector, n: nat, calls: nat)
    requires ValidEnv(e) && Valid(s) && e.switchStore
    ensures var cs := Calls(e, s, n, calls);
      && |cs| == calls
      && (forall i :: 0 <= i < calls && !cs[i].fallback ==> cs[i].store !in s.tried)
      && (forall i, j :: 0 <= i < j < calls && !cs[i].fallback && !cs[j].fallback ==> cs[i].store != cs[j].store)
    decreases calls
  {
    if calls > 0 {
      SearchFindsUntried(e, s, n);
      var (s1, choice, next) := Search(e, s, n);
      CallsAvoidTried(e, s1, next, calls - 1);
      hide Search;
      var cs, rest := Calls(e, s, n, calls), Calls(e, s1, next, calls - 1);
      assert forall i :: 0 < i < calls ==> cs[i] == rest[i - 1];
    }
  }

  /** Store `k` was found blocked in some turn from `n` on. */
  ghost predicate WasBlocked(e: Env, k: int, n: nat) {
    exists t: nat {:trigger e.blocked(k, t)} :: n <= t && e.blocked(k, t)
  }

  /** A store is among the tried ones because it was tried before, was chosen, or was found blocked. */
  lemma {:induction false} TriedWasChosenOrBlocked(e: Env, s: Selector, n: nat, k: int)
    requires ValidEnv(e) && Valid(s) && e.switchStore
    ensures var (s1, choice, next) := Search(e, s, n);
      k in s1.tried ==> k in s.tried || (!choice.fallback && choice.store == k) || WasBlocked(e, k, n)
    decreases if s.retry == 0 then 1 else 0, |Untried(e, s)|
  {
    SearchTurns(e, s, n);
    hide Search;
    var candidate := Candidate(e, s, n);
    if candidate.Some? && e.blocked(candidate.value, n) {
      CandidateIsUntried(e, s, n);
      if s.retry > 0 { TryingShrinks(e, s, candidate.value); }
      hide Candidate, Untried, Usable;
      var s1 := Selector(s.retry + 1, s.tried + {candidate.value});
      TriedWasChosenOrBlocked(e, s1, n + 1, k);
      if WasBlocked(e, k, n + 1) { BlockedEarlier(e, k, n, n + 1); }
    }
  }

  lemma BlockedEarlier(e: Env, k: int, n: nat, later: nat)
    requires n <= later && WasBlocked(e, k, later)
    ensures WasBlocked(e, k, n)
  {
  }

  /** One of the first `i` calls chose store `k`. */
  ghost predicate Chosen(cs: seq<Choice>, i: nat, k: int) {
    exists j :: 0 <= j < i && j < |cs| && cs[j] == Choice(k, false)
  }

  lemma {:induction false} FallbackAfterAll(e: Env, s: Selector, n: nat, calls: nat, i: nat, k: int)
    requires ValidEnv(e) && Valid(s) && e.switchStore && k in e.stores && k in e.hashes && e.hashes[k] != {}
    ensures var cs := Calls(e, s, n, calls);
      i < calls == |cs| && cs[i].fallback ==> k in s.tried || Chosen(cs, i, k) || WasBlocked(e, k, n)
    decreases calls
  {
    if calls > 0 {
      SearchFindsUntried(e, s, n);
      TriedWasChosenOrBlocked(e, s, n, k);
      var (s1, choice, next) := Search(e, s, n);
      var cs, rest := Calls(e, s, n, calls), Calls(e, s1, next, calls - 1);
      assert cs == [choice] + rest;
      hide Search, Calls;
      if i > 0 {
        FallbackAfterAll(e, s1, next, calls - 1, i - 1, k);
        if i < calls == |cs| && cs[i].fallback { CarryOver(e, choice, rest, i, n, next, k); }
      }
      if i > 0 && !choice.fallback && choice.store == k { assert cs[0] == Choice(k, false); }
    }
  }

  lemma CarryOver(e: Env, choice: Choice, rest: seq<Choice>, i: nat, n: nat, next: nat, k: int)
    requires 0 < i && n <= next
    ensures Chosen(rest, i - 1, k) ==> Chosen([choice] + rest, i, k)
    ensures WasBlocked(e, k, next) ==> WasBlocked(e, k, n)
  {
    if Chosen(rest, i - 1, k) {
      var j :| 0 <= j < i - 1 && j < |rest| && rest[j] == Choice(k, false);
      assert ([choice] + rest)[j + 1] == Choice(k, false);
    }
  }

  /** Retries of one request go to different stores until every store with a positive scale was tried:
      choices that are no fallback are pairwise distinct, and a fallback comes only when every store with a
      point was chosen by an earlier call or was found blocked. */
  lemma RetriesSwitchStores(e: Env, n: nat, calls: nat)
    requires ValidEnv(e) && e.switchStore
    ensures var cs := Calls(e, Selector(0, {}), n, calls);
      && |cs| == calls
      && (forall i, j :: 0 <= i < j < calls && !cs[i].fallback && !cs[j].fallback ==> cs[i].store != cs[j].store)
      && (forall i: nat, k :: i < calls && cs[i].fallback && k in e.stores && k in e.hashes && e.hashes[k] != {} ==>
            Chosen(cs, i, k) || WasBlocked(e, k, n))
  {
    CallsAvoidTried(e, Selector(0, {}), n, calls);
    hide Calls;
    var cs := Calls(e, Selector(0, {}), n, calls);
    forall i: nat, k | i < calls && cs[i].fallback && k in e.stores && k in e.hashes && e.hashes[k] != {}
      ensures Chosen(cs, i, k) || WasBlocked(e, k, n)
    {
      FallbackAfterAll(e, Selector(0, {}), n, calls, i, k);
    }
  }
}
