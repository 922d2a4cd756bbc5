/** The process-wide egress guard behind worker threads: every research operation
    enters a context with its profile and its search budget and leaves it again,
    in whatever order the operations happen to end. */
module EgressGuard {
  import opened Keyspace

  datatype Profile = Profile(name: string)

  const GENERAL := Profile("general")
  const DENY_ALL := Profile("__deny_all__")

  /** The shared allowance of outbound searches of one operation. The ghost
      counters are the requests it let through and refused. */
  class SearchBudget {
    const maximum: int
    var remaining: int
    var exhausted: bool
    ghost var passed: nat
    ghost var refused: nat

    constructor (maximum: int)
      ensures Valid() && this.maximum == maximum && passed == 0 && refused == 0
    {
      this.maximum, remaining, exhausted := maximum, maximum, false;
      passed, refused := 0, 0;
    }

    /** No more requests pass than the maximum, and the flag says exactly
        whether one was ever refused. */
    ghost predicate Valid()
      reads this
    {
      && remaining == maximum - passed
      && passed <= Max(0, maximum)
      && (exhausted <==> 0 < refused)
    }

    method Consume() returns (allowed: bool)
      requires Valid()
      modifies this
      ensures Valid()
      ensures allowed <==> old(passed) < maximum
      ensures passed == old(passed) + (if allowed then 1 else 0)
      ensures refused == old(refused) + (if allowed then 0 else 1)
    {
      if remaining <= 0 {
        exhausted := true;
        refused := refused + 1;
        return false;
      }
      remaining := remaining - 1;
      passed := passed + 1;
      return true;
    }
  }

  /** An operation inside the guard. Without a search limit it has no budget. */
  datatype Context = Context(profile: Profile, budget: SearchBudget?)

  function Profiles(active: seq<Context>): seq<Profile> {
    if active == [] then [] else [active[0].profile] + Profiles(active[1..])
  }

  function Budgets(active: seq<Context>): seq<SearchBudget?> {
    if active == [] then [] else [active[0].budget] + Budgets(active[1..])
  }

  lemma ProjectionsAppend(a: seq<Context>, b: seq<Context>)
    ensures Profiles(a + b) == Profiles(a) + Profiles(b)
    ensures Budgets(a + b) == Budgets(a) + Budgets(b)
  {
    ProfilesAppend(a, b);
    BudgetsAppend(a, b);
  }

  lemma {:induction false} ProfilesAppend(a: seq<Context>, b: seq<Context>)
    ensures Profiles(a + b) == Profiles(a) + Profiles(b)
  {
    if a == [] {
      assert a + b == b;
    } else {
      assert (a + b)[1..] == a[1..] + b;
      ProfilesAppend(a[1..], b);
    }
  }

  lemma {:induction false} BudgetsAppend(a: seq<Context>, b: seq<Context>)
    ensures Budgets(a + b) == Budgets(a) + Budgets(b)
  {
    if a == [] {
      assert a + b == b;
    } else {
      assert (a + b)[1..] == a[1..] + b;
      BudgetsAppend(a[1..], b);
    }
  }

  /** A context leaving from anywhere takes one copy of its profile and one of its
      budget out of the bags. */
  lemma LeavingShrinksBags(active: seq<Context>, i: nat)
    requires i < |active|
    ensures var rest := active[..i] + active[i + 1..];
            && multiset(Profiles(active)) == multiset(Profiles(rest)) + multiset{active[i].profile}
            && multiset(Budgets(active)) == multiset(Budgets(rest)) + multiset{active[i].budget}
  {
    assert active == active[..i] + ([active[i]] + active[i + 1..]);
    ProjectionsAppend(active[..i], [active[i]] + active[i + 1..]);
    ProjectionsAppend([active[i]], active[i + 1..]);
    ProjectionsAppend(active[..i], active[i + 1..]);
    assert Profiles([active[i]]) == [active[i].profile] && Budgets([active[i]]) == [active[i].budget];
  }

  /** The stack without its last occurrence of x. */
  function RemoveLast<T(==)>(stack: seq<T>, x: T): seq<T> {
    if stack == [] then []
    else if stack[|stack| - 1] == x then stack[..|stack| - 1]
    else RemoveLast(stack[..|stack| - 1], x) + [stack[|stack| - 1]]
  }

  lemma {:induction false} RemoveLastTakesOne<T>(stack: seq<T>, x: T)
    requires x in stack
    ensures multiset(RemoveLast(stack, x)) == multiset(stack) - multiset{x}
    decreases |stack|
  {
    var top, below := stack[|stack| - 1], stack[..|stack| - 1];
    assert stack == below + [top];
    if top != x { RemoveLastTakesOne(below, x); }
  }

  /** What goes is the last occurrence. */
  lemma {:induction false} RemoveLastIsLast<T>(stack: seq<T>, x: T) returns (i: nat)
    requires x in stack
    ensures i < |stack| && stack[i] == x && x !in stack[i + 1..]
    ensures RemoveLast(stack, x) == stack[..i] + stack[i + 1..]
    decreases |stack|
  {
    var last := |stack| - 1;
    if stack[last] == x {
      i := last;
    } else {
      i := RemoveLastIsLast(stack[..last], x);
      assert stack[i + 1..] == stack[..last][i + 1..] + [stack[last]];
      assert stack[..last][..i] == stack[..i];
    }
  }

  /** The stack without the last occurrence of x among its first n. */
  function RemoveLastFrom<T(==)>(stack: seq<T>, x: T, n: nat): (rest: seq<T>)
    requires n <= |stack|
    ensures n == |stack| ==> rest == RemoveLast(stack, x)
    ensures n == 0 ==> rest == stack
  {
    if n == |stack| then RemoveLast(stack, x)
    else if n == 0 then stack
    else RemoveLast(stack[..n], x) + stack[n..]
  }

  lemma RemoveLastBelow<T>(stack: seq<T>, x: T, index: nat)
    requires index < |stack|
    ensures RemoveLastFrom(stack, x, index + 1)
            == if stack[index] == x then stack[..index] + stack[index + 1..] else RemoveLastFrom(stack, x, index)
  {
    assert stack[..index + 1][..index] == stack[..index];
    assert stack[index..] == [stack[index]] + stack[index + 1..];
    assert stack[..|stack|] == stack;
    assert stack[..index + 1] == stack[..index] + [stack[index]];
    if index == 0 {
      assert RemoveLast(stack[..0], x) == [];
      assert RemoveLast(stack[..1], x) == if stack[0] == x then [] else [stack[0]];
      assert stack == [stack[0]] + stack[1..];
    }
  }

  /** Search a stack from its top and pop the first match. */
  method PopLast<T(==)>(stack: seq<T>, x: T) returns (rest: seq<T>)
    ensures rest == RemoveLast(stack, x)
  {
    var index := |stack| - 1;
    while index >= 0
      invariant -1 <= index < |stack|
      invariant RemoveLast(stack, x) == RemoveLastFrom(stack, x, index + 1)
    {
      RemoveLastBelow(stack, x, index);
      if stack[index] == x {
        return stack[..index] + stack[index + 1..];
      }
      index := index - 1;
    }
    return stack;
  }

  lemma BagWithoutOne<T>(bag: multiset<T>, rest: multiset<T>, x: T)
    requires bag == rest + multiset{x}
    ensures x in bag && bag - multiset{x} == rest
  {
  }

  /** What the guard enforces for a thread without a context of its own. */
  function FallbackProfile(stack: seq<Profile>): Profile {
    if stack == [] then GENERAL
    else if forall i :: 0 <= i < |stack| ==> stack[i] == stack[0] then stack[|stack| - 1]
    else DENY_ALL
  }

  predicate Unanimous(active: seq<Context>, p: Profile) {
    forall i :: 0 <= i < |active| ==> active[i].profile == p
  }

  /** The fallback depends only on which profiles are active, not on the order
      they came and went: it is p exactly when all of them are p, and denies
      everything as soon as two differ. */
  lemma FallbackIsUnanimous(stack: seq<Profile>, active: seq<Context>, p: Profile)
    requires multiset(stack) == multiset(Profiles(active)) && active != []
    ensures Unanimous(active, p) ==> FallbackProfile(stack) == p
    ensures p != DENY_ALL && FallbackProfile(stack) == p ==> Unanimous(active, p)
    ensures !Unanimous(active, active[0].profile) ==> FallbackProfile(stack) == DENY_ALL
  {
    ProfilesPointwise(active);
    assert forall q :: q in stack <==> q in multiset(stack);
    assert forall q :: q in Profiles(active) <==> q in multiset(Profiles(active));
    forall i | 0 <= i < |active| ensures active[i].profile in stack {
      assert Profiles(active)[i] in Profiles(active);
    }
    forall i | 0 <= i < |stack| ensures exists j :: 0 <= j < |active| && active[j].profile == stack[i] {
      assert stack[i] in Profiles(active);
    }
    assert stack != [] by { assert active[0].profile in stack; }
  }

  lemma {:induction false} ProfilesPointwise(active: seq<Context>)
    ensures |Profiles(active)| == |active|
    ensures forall i :: 0 <= i < |active| ==> Profiles(active)[i] == active[i].profile
  {
    if active != [] { ProfilesPointwise(active[1..]); }
  }

  lemma LeavingKeepsBags(profiles: seq<Profile>, budgets: seq<SearchBudget?>, active: seq<Context>, i: nat)
    requires i < |active|
    requires multiset(profiles) == multiset(Profiles(active)) && multiset(budgets) == multiset(Budgets(active))
    ensures var rest := active[..i] + active[i + 1..];
            && multiset(RemoveLast(profiles, active[i].profile)) == multiset(Profiles(rest))
            && multiset(RemoveLast(budgets, active[i].budget)) == multiset(Budgets(rest))
  {
    var rest := active[..i] + active[i + 1..];
    LeavingShrinksBags(active, i);
    BagWithoutOne(multiset(profiles), multiset(Profiles(rest)), active[i].profile);
    BagWithoutOne(multiset(budgets), multiset(Budgets(rest)), active[i].budget);
    RemoveLastTakesOne(profiles, active[i].profile);
    RemoveLastTakesOne(budgets, active[i].budget);
  }

  lemma EnteringKeepsBags(profiles: seq<Profile>, budgets: seq<SearchBudget?>, active: seq<Context>, c: Context)
    requires multiset(profiles) == multiset(Profiles(active)) && multiset(budgets) == multiset(Budgets(active))
    ensures multiset(profiles + [c.profile]) == multiset(Profiles(active + [c]))
    ensures multiset(budgets + [c.budget]) == multiset(Budgets(active + [c]))
  {
    ProjectionsAppend(active, [c]);
    assert Profiles([c]) == [c.profile] && Budgets([c]) == [c.budget];
  }

  /** Where a stack holds real budgets. */
  function Limited(budgets: seq<SearchBudget?>): (at: seq<nat>)
    ensures forall i :: 0 <= i < |at| ==> at[i] < |budgets| && budgets[at[i]] != null
  {
    if budgets == [] then []
    else
      var last := |budgets| - 1;
      Limited(budgets[..last]) + if budgets[last] != null then [last] else []
  }

  /** A position is limited exactly when it holds a real budget. */
  lemma {:induction false} LimitedIffBudget(budgets: seq<SearchBudget?>)
    ensures forall i: nat :: i in Limited(budgets) <==> i < |budgets| && budgets[i] != null
    ensures forall i, j :: 0 <= i < j < |Limited(budgets)| ==> Limited(budgets)[i] < Limited(budgets)[j]
    ensures forall i :: 0 <= i < |Limited(budgets)| ==> Limited(budgets)[i] < |budgets|
    decreases |budgets|
  {
    if budgets != [] { LimitedIffBudget(budgets[..|budgets| - 1]); }
  }

  /** With two budgets active a foreign request has no single one to count on. */
  lemma TwoBudgetsAreTwo(budgets: seq<SearchBudget?>, i: nat, j: nat)
    requires i < j < |budgets| && budgets[i] != null && budgets[j] != null
    ensures |Limited(budgets)| >= 2
  {
    LimitedIffBudget(budgets);
    assert i in Limited(budgets) && j in Limited(budgets);
  }

  // ----- Whose requests count -----

  const SEARCH_PROVIDER_HOSTS: seq<string> :=
    ["api.tavily.com", "google.serper.dev", "serpapi.com", "api.search.brave.com"]

  function EndsWith(s: string, tail: string): bool {
    |tail| <= |s| && s[|s| - |tail|..] == tail
  }

  /** The host is the domain or one below it. */
  predicate Within(host: string, domain: string) {
    host == domain || EndsWith(host, "." + domain)
  }

  predicate MatchDomain(host: string, candidates: seq<string>) {
    exists k :: 0 <= k < |candidates| && Within(host, candidates[k])
  }

  predicate IsSearchProvider(host: Option<string>) {
    host.Some? && host.value != "" && MatchDomain(host.value, SEARCH_PROVIDER_HOSTS)
  }

  /** Each provider's host, and every host below it, is a search provider; a host
      that merely ends alike is not. */
  lemma ProvidersAndBelowMatch(k: nat, name: string, host: string)
    requires k < |SEARCH_PROVIDER_HOSTS|
    ensures IsSearchProvider(Some(SEARCH_PROVIDER_HOSTS[k]))
    ensures IsSearchProvider(Some(name + "." + SEARCH_PROVIDER_HOSTS[k]))
    ensures IsSearchProvider(Some(host)) <==>
              exists d :: d in SEARCH_PROVIDER_HOSTS && (host == d || exists below :: host == below + "." + d)
  {
    var d := SEARCH_PROVIDER_HOSTS[k];
    BelowIsWithin(name, d);
    assert Within(d, d);
    forall d | d in SEARCH_PROVIDER_HOSTS ensures Within(host, d) <==> (host == d || exists below :: host == below + "." + d) {
      WithinMeansBelow(host, d);
    }
    assert forall d :: d in SEARCH_PROVIDER_HOSTS ==> d != "";
  }

  lemma BelowIsWithin(name: string, domain: string)
    ensures Within(name + "." + domain, domain)
  {
    var host := name + "." + domain;
    assert host == name + ("." + domain);
    assert host[|name|..] == "." + domain;
  }

  lemma WithinMeansBelow(host: string, domain: string)
    ensures Within(host, domain) <==> (host == domain || exists below :: host == below + "." + domain)
  {
    if Within(host, domain) && host != domain {
      var below := host[..|host| - |domain| - 1];
      assert host == below + ("." + domain);
      assert host == below + "." + domain;
    }
    if below :| host == below + "." + domain { BelowIsWithin(below, domain); }
  }

  class Guard {
    var depth: int
    var profiles: seq<Profile>
    var budgets: seq<SearchBudget?>
    ghost var active: seq<Context>

    constructor ()
      ensures Valid() && active == []
    {
      depth, profiles, budgets := 0, [], [];
      active := [];
    }

    /** Depth and both stacks agree, as bags, with the contexts inside. */
    ghost predicate Valid()
      reads this
    {
      && depth == |active|
      && multiset(profiles) == multiset(Profiles(active))
      && multiset(budgets) == multiset(Budgets(active))
    }

    method Enter(profile: Profile, maximumSearches: Option<int>) returns (c: Context)
      requires Valid()
      modifies this
      ensures Valid() && active == old(active) + [c]
      ensures c.profile == profile && (c.budget == null <==> maximumSearches.None?)
      ensures c.budget != null ==> fresh(c.budget) && c.budget.Valid() && c.budget.maximum == maximumSearches.value
    {
      var budget: SearchBudget? := null;
      if maximumSearches.Some? {
        budget := new SearchBudget(maximumSearches.value);
      }
      c := Context(profile, budget);
      EnteringKeepsBags(profiles, budgets, active, c);
      depth := depth + 1;
      profiles := profiles + [profile];
      budgets := budgets + [budget];
      active := active + [c];
    }

    /** The i-th context leaves, whichever it is. */
    method Exit(c: Context, ghost i: nat)
      requires Valid() && i < |active| && active[i] == c
      modifies this
      ensures Valid() && active == old(active[..i] + active[i + 1..])
      ensures depth == old(depth) - 1
    {
      ghost var rest := active[..i] + active[i + 1..];
      LeavingKeepsBags(profiles, budgets, active, i);
      depth := Max(0, depth - 1);
      profiles := PopLast(profiles, c.profile);
      budgets := PopLast(budgets, c.budget);
      active := rest;
    }

    /** A thread inside a context has its own profile; any other falls back. */
    method ActiveProfile(own: Option<Profile>) returns (p: Profile)
      requires Valid()
      ensures own.Some? ==> p == own.value
      ensures own.None? ==> p == FallbackProfile(profiles)
      ensures own.None? && active == [] ==> p == GENERAL
      ensures own.None? && active != [] ==>
                forall q {:trigger Unanimous(active, q)} :: q != DENY_ALL ==> (p == q <==> Unanimous(active, q))
    {
      if own.Some? {
        return own.value;
      }
      p := FallbackProfile(profiles);
      assert active == [] ==> |profiles| == |multiset(profiles)| == 0;
      if active != [] {
        forall q {:trigger Unanimous(active, q)} | q != DENY_ALL ensures p == q <==> Unanimous(active, q) {
          FallbackIsUnanimous(profiles, active, q);
        }
      }
    }

    /** A request to a host: free unless the host is a search provider's; else on
        the thread's own budget, else on the only one active; with several active
        it is refused, on no one's account. */
    method ConsumeSearchBudget(host: Option<string>, own: SearchBudget?) returns (allowed: bool, charged: SearchBudget?)
      requires Valid() && (own != null ==> own.Valid())
      requires forall k :: 0 <= k < |budgets| && budgets[k] != null ==> budgets[k].Valid()
      modifies own, set k | 0 <= k < |budgets| && budgets[k] != null :: budgets[k]
      ensures budgets == old(budgets)
      ensures !IsSearchProvider(host) ==>
                && allowed && charged == null
                && (own != null ==> own.passed == old(own.passed) && own.refused == old(own.refused))
      ensures IsSearchProvider(host) && own != null ==> charged == own && (allowed <==> old(own.passed) < own.maximum)
      ensures IsSearchProvider(host) && own == null && |Limited(budgets)| == 1 ==>
                var only := Limited(budgets)[0];
                charged == budgets[only] && (allowed <==> old(budgets[only].passed) < budgets[only].maximum)
      ensures IsSearchProvider(host) && own == null && |Limited(budgets)| != 1 ==>
                charged == null && (allowed <==> Limited(budgets) == [])
      ensures charged != null ==> charged.Valid() && (!allowed ==> charged.exhausted)
      ensures forall k :: 0 <= k < |budgets| && budgets[k] != null && budgets[k] != charged ==>
                budgets[k].remaining == old(budgets[k].remaining) && budgets[k].exhausted == old(budgets[k].exhausted)
    {
      if !IsSearchProvider(host) {
        return true, null;
      }
      allowed, charged := ConsumeFor(own);
    }

    method ConsumeFor(own: SearchBudget?) returns (allowed: bool, charged: SearchBudget?)
      requires Valid() && (own != null ==> own.Valid())
      requires forall k :: 0 <= k < |budgets| && budgets[k] != null ==> budgets[k].Valid()
      modifies own, set k | 0 <= k < |budgets| && budgets[k] != null :: budgets[k]
      ensures budgets == old(budgets)
      ensures own != null ==> charged == own && (allowed <==> old(own.passed) < own.maximum)
      ensures own == null && |Limited(budgets)| == 1 ==>
                var only := Limited(budgets)[0];
                charged == budgets[only] && (allowed <==> old(budgets[only].passed) < budgets[only].maximum)
      ensures own == null && |Limited(budgets)| != 1 ==> charged == null && (allowed <==> Limited(budgets) == [])
      ensures charged != null ==> charged.Valid() && (!allowed ==> charged.exhausted)
      ensures forall k :: 0 <= k < |budgets| && budgets[k] != null && budgets[k] != charged ==>
                budgets[k].remaining == old(budgets[k].remaining) && budgets[k].exhausted == old(budgets[k].exhausted)
    {
      charged := own;
      if own == null {
        var limited := Limited(budgets);
        if limited == [] {
          return true, null;
        }
        if |limited| != 1 {
          var closed := new SearchBudget(0);
          allowed := closed.Consume();
          return allowed, null;
        }
        charged := budgets[limited[0]];
      }
      allowed := charged.Consume();
    }
  }
}
