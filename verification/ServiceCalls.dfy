/** Whole calls of use_service and make_service: what they return or throw, and
    why what a constructor was given outlives what it constructs. */
module ServiceCalls {
  import opened Basics
  import opened Services

  type Run = seq<System>
  type Actions = seq<Action>

  /** The key that a call is for, and whether it is make_service. */
  function KeyOf(s: System, a: Action): Key
    requires Enabled(s, a) && (a.Call? || a.Publish?)
  {
    if a.Call? then a.key else Top(s.threads[a.t]).key
  }

  function IsMake(s: System, a: Action): bool
    requires Enabled(s, a) && (a.Call? || a.Publish?)
  {
    if a.Call? then a.make else Top(s.threads[a.t]).make
  }

  /** How many calls the thread is inside of once this one is over. */
  function DepthAfter(s: System, a: Action): int
    requires Enabled(s, a) && (a.Call? || a.Publish?)
  {
    if a.Call? then |s.threads[a.t]| else |s.threads[a.t]| - 1
  }

  /** The call finds a service with its key: use_service returns that service, and
      make_service throws; nothing is registered. */
  ghost predicate EndsWithExisting(s: System, a: Action, s': System)
    requires Enabled(s, a) && (a.Call? || a.Publish?)
  {
    && s'.registered == s.registered && s'.made == s.made
    && |s'.threads| == |s.threads| && |s'.threads[a.t]| == DepthAfter(s, a)
    && if IsMake(s, a) then
         s'.refused == s.refused + [KeyOf(s, a)] && s'.returned == s.returned
       else
         && s'.refused == s.refused
         && exists e :: e in s.registered && e.key == KeyOf(s, a) && s'.returned == s.returned + [e]
  }

  /** The call registers and returns a new service. */
  predicate EndsWithNew(s: System, a: Action, s': System)
    requires Enabled(s, a) && (a.Call? || a.Publish?)
  {
    var e := Entry(s.created, KeyOf(s, a));
    && s'.registered == s.registered + [e] && s'.returned == s.returned + [e] && s'.refused == s.refused
    && s'.made == (if IsMake(s, a) then s.made + [e] else s.made)
    && |s'.threads| == |s.threads| && |s'.threads[a.t]| == DepthAfter(s, a)
  }

  /** The call begins to construct a service. */
  predicate Constructs(s: System, a: Action, s': System)
    requires Enabled(s, a) && (a.Call? || a.Publish?)
  {
    && s'.registered == s.registered && s'.returned == s.returned && s'.refused == s.refused && s'.made == s.made
    && |s'.threads| == |s.threads|
    && s'.threads[a.t] == s.threads[a.t] + [Frame(KeyOf(s, a), IsMake(s, a), |s.registered|, {})]
  }

  lemma FoundEnds(s: System, a: Action, from: System, stack: Stack, e: Entry)
    requires Enabled(s, a) && (a.Call? || a.Publish?)
    requires from == s.(created := from.created, given := from.given, discarded := from.discarded)
    requires |stack| == DepthAfter(s, a) && e in s.registered && e.key == KeyOf(s, a)
    ensures EndsWithExisting(s, a, Found(from, a.t, stack, IsMake(s, a), e))
  {
  }

  /** In every run, however threads race: a step of a call that finds its key in the
      list ends with the existing service, and a step that does not begins to
      construct one, or registers the one that it has constructed. */
  lemma CallsEndAsTheListSays(systems: Run, actions: Actions, n: nat)
    requires IsRun(systems, actions) && n < |actions| && (actions[n].Call? || actions[n].Publish?)
    requires Enabled(systems[n], actions[n])
    ensures var s, s', a := systems[n], systems[n + 1], actions[n];
            if HasKey(s.registered, KeyOf(s, a)) then EndsWithExisting(s, a, s')
            else if a.Call? then Constructs(s, a, s') else EndsWithNew(s, a, s')
  {
    var s, a := systems[n], actions[n];
    RunKeepsInv(systems, actions, n);
    if a.Call? {
      FindIsExact(s.registered, a.key);
      if HasKey(s.registered, a.key) {
        FoundEnds(s, a, s, s.threads[a.t], Find(s.registered, a.key).value);
      }
    } else {
      var f := Top(s.threads[a.t]);
      assert FrameOk(s.registered, f);
      NotSeenNotThere(s.registered, f);
      FindIsExact(s.registered[f.seen..], f.key);
      if HasKey(s.registered, f.key) {
        FoundEnds(s, a, Discarded(s, f), Drop(s.threads[a.t]), Find(s.registered[f.seen..], f.key).value);
      }
    }
  }

  /** A constructor that throws ends its call and leaves no trace. */
  lemma ThrowLeavesNoTrace(systems: Run, actions: Actions, n: nat)
    requires IsRun(systems, actions) && n < |actions| && actions[n].Throw?
    ensures var s, s', t := systems[n], systems[n + 1], actions[n].t;
            && t < |s.threads| && s.threads[t] != []
            && s' == s.(threads := s.threads[t := s.threads[t][..|s.threads[t]| - 1]])
  {
  }

  lemma {:induction false} ListOnlyGrows(systems: Run, actions: Actions, n: nat, m: nat)
    requires IsRun(systems, actions) && n <= m < |systems|
    ensures systems[n].registered <= systems[m].registered
  {
    if m > n {
      ListOnlyGrows(systems, actions, n, m - 1);
    }
  }

  /** Whatever any call had returned when a service was registered is behind that
      service in the list for ever, and so it is shut down and destroyed later; in
      particular all that its constructor was given. */
  lemma ReturnedBeforeOutlives(systems: Run, actions: Actions, n: nat, m: nat, e: Entry, i: nat)
    requires IsRun(systems, actions) && n < |actions| && n < m < |systems| && e in systems[n].returned
    requires i < |systems[n + 1].registered| && systems[n + 1].registered[i] !in systems[n].registered
    ensures i < |systems[m].registered| && systems[m].registered[i] == systems[n + 1].registered[i]
    ensures exists j | 0 <= j < i :: systems[m].registered[j] == e
    ensures forall j | 0 <= j < |systems[m].registered| && systems[m].registered[j] == e :: j < i
  {
    RunKeepsInv(systems, actions, n);
    RunKeepsInv(systems, actions, m);
    ListOnlyGrows(systems, actions, n, n + 1);
    ListOnlyGrows(systems, actions, n + 1, m);
    var before, after, last := systems[n].registered, systems[n + 1].registered, systems[m].registered;
    assert e in before;
    var j :| 0 <= j < |before| && before[j] == e;
    assert i >= |before|;
    assert last[j] == after[j] == e && last[i] == after[i];
  }
}
