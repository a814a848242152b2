/** The simulated cluster: locked chaos actions that run while an ambient loop keeps drifting the metrics. */
module MockCluster {

  datatype Phase = Pending | ContainerCreating | Running | Terminating
  datatype Pod = Pod(name: nat, phase: Phase, ready: bool)
  datatype Pods = Nil | Cons(head: Pod, tail: Pods)

  function Size(pods: Pods): nat {
    if pods.Nil? then 0 else 1 + Size(pods.tail)
  }

  function Names(pods: Pods): set<nat> {
    if pods.Nil? then {} else {pods.head.name} + Names(pods.tail)
  }

  predicate UniqueNames(pods: Pods) {
    pods.Cons? ==> pods.head.name !in Names(pods.tail) && UniqueNames(pods.tail)
  }

  predicate AllReady(pods: Pods) {
    pods.Cons? ==> pods.head.ready && pods.head.phase == Running && AllReady(pods.tail)
  }

  /** pods.append(p). */
  function Add(pods: Pods, p: Pod): Pods {
    if pods.Nil? then Cons(p, Nil) else Cons(pods.head, Add(pods.tail, p))
  }

  /** Assigning to the pod object of this name. */
  function Mark(pods: Pods, name: nat, phase: Phase, ready: bool): Pods {
    if pods.Nil? then Nil
    else
      var head := if pods.head.name == name then Pod(name, phase, ready) else pods.head;
      Cons(head, Mark(pods.tail, name, phase, ready))
  }

  /** [p for p in pods if p.name != name]. */
  function Without(pods: Pods, name: nat): Pods {
    if pods.Nil? then Nil
    else if pods.head.name == name then Without(pods.tail, name)
    else Cons(pods.head, Without(pods.tail, name))
  }

  /** Every other pod, from the first on, goes down: pods[::2]. */
  function Struck(pods: Pods): Pods {
    match pods
    case Nil => Nil
    case Cons(h, Nil) => Cons(Pod(h.name, Terminating, false), Nil)
    case Cons(h, Cons(x, rest)) => Cons(Pod(h.name, Terminating, false), Cons(x, Struck(rest)))
  }

  /** [p for p in pods if p.phase != "Terminating"]. */
  function Survivors(pods: Pods): Pods {
    if pods.Nil? then Nil
    else if pods.head.phase == Terminating then Survivors(pods.tail)
    else Cons(pods.head, Survivors(pods.tail))
  }

  lemma {:induction false} AddFacts(pods: Pods, p: Pod)
    ensures Size(Add(pods, p)) == Size(pods) + 1 && Names(Add(pods, p)) == Names(pods) + {p.name}
    ensures UniqueNames(pods) && p.name !in Names(pods) ==> UniqueNames(Add(pods, p))
    ensures AllReady(pods) && p.ready && p.phase == Running ==> AllReady(Add(pods, p))
  {
    if pods.Cons? {
      AddFacts(pods.tail, p);
    }
  }

  lemma {:induction false} AbsentFacts(pods: Pods, name: nat, phase: Phase, ready: bool)
    requires name !in Names(pods)
    ensures Mark(pods, name, phase, ready) == pods && Without(pods, name) == pods
  {
    if pods.Cons? {
      AbsentFacts(pods.tail, name, phase, ready);
    }
  }

  lemma {:induction false} MarkAdded(pods: Pods, p: Pod, phase: Phase, ready: bool)
    requires p.name !in Names(pods)
    ensures Mark(Add(pods, p), p.name, phase, ready) == Add(pods, Pod(p.name, phase, ready))
  {
    if pods.Cons? {
      MarkAdded(pods.tail, p, phase, ready);
    }
  }

  lemma {:induction false} WithoutShrinks(pods: Pods, name: nat)
    ensures Size(Without(pods, name)) <= Size(pods)
    ensures name in Names(pods) ==> Size(Without(pods, name)) < Size(pods)
  {
    if pods.Cons? {
      WithoutShrinks(pods.tail, name);
    }
  }

  /** Appending a replacement and filtering out the target by name conserves the count exactly when the names differ. */
  lemma ReplacementConserves(pods: Pods, added: Pod)
    requires pods.Cons? && UniqueNames(pods)
    ensures Size(Without(Add(pods, added), pods.head.name)) == Size(pods) <==> added.name != pods.head.name
    ensures added.name != pods.head.name ==> Without(Add(pods, added), pods.head.name) == Add(pods.tail, added)
  {
    AddFacts(pods.tail, added);
    if added.name != pods.head.name {
      AbsentFacts(Add(pods.tail, added), pods.head.name, Running, true);
    } else {
      WithoutShrinks(Add(pods.tail, added), added.name);
    }
  }

  /** Half the pods, rounded down, survive an outage, untouched and still with different names. */
  lemma {:induction false} HalfSurvive(pods: Pods)
    requires AllReady(pods) && UniqueNames(pods)
    ensures Size(Survivors(Struck(pods))) == Size(pods) / 2
    ensures AllReady(Survivors(Struck(pods))) && UniqueNames(Survivors(Struck(pods)))
    ensures Names(Survivors(Struck(pods))) <= Names(pods)
    decreases Size(pods)
  {
    match pods
    case Nil =>
    case Cons(h, Nil) =>
    case Cons(h, Cons(x, rest)) => HalfSurvive(rest);
  }

  // Services.

  datatype ServiceName = ApiGateway | UserService | TaskService | NotificationService | Unknown(text: string)
  datatype Service = Service(desired: nat, pods: Pods, healthy: bool, latency: real, rps: real, errorRate: real)
  type Services = map<ServiceName, Service>

  const SERVICE_NAMES := [ApiGateway, UserService, TaskService, NotificationService]
  const ALL_SERVICES := {ApiGateway, UserService, TaskService, NotificationService}

  predicate NamesBelow(pods: Pods, next: nat) {
    forall n :: n in Names(pods) ==> n < next
  }

  /** What every service looks like while no action runs. */
  predicate Settled(s: Service, next: nat) {
    && s.healthy && AllReady(s.pods) && Size(s.pods) >= s.desired >= 1
    && UniqueNames(s.pods) && NamesBelow(s.pods, next)
  }

  datatype Noise = Noise(latency: real, rps: real, errorRate: real)

  function Max(a: real, b: real): real { if a < b then b else a }
  function Min(a: real, b: real): real { if a < b then a else b }

  /** One ambient tick of one service; an unhealthy service is skipped. */
  function Tick(s: Service, noise: Noise): Service {
    if !s.healthy then s
    else s.(
      latency := Max(20.0, s.latency + noise.latency),
      rps := Max(10.0, s.rps + noise.rps),
      errorRate := Max(0.0, Min(0.01, s.errorRate + noise.errorRate)))
  }

  /** A tick moves every metric of a healthy service by its noise, cut to its range, and touches nothing else. */
  lemma TickExact(s: Service, noise: Noise)
    ensures var t := Tick(s, noise);
            && t.pods == s.pods && t.desired == s.desired && t.healthy == s.healthy
            && (!s.healthy ==> t == s)
            && (s.healthy ==>
                  && t.latency == (if s.latency + noise.latency < 20.0 then 20.0 else s.latency + noise.latency)
                  && t.rps == (if s.rps + noise.rps < 10.0 then 10.0 else s.rps + noise.rps)
                  && 0.0 <= t.errorRate <= 0.01
                  && (0.0 <= s.errorRate + noise.errorRate <= 0.01 ==> t.errorRate == s.errorRate + noise.errorRate))
  {
  }

  /** What any number of ticks can do: nothing to pods or health, and nothing at all to an unhealthy service. */
  predicate Drifted(a: Service, b: Service) {
    b.desired == a.desired && b.pods == a.pods && b.healthy == a.healthy && (!a.healthy ==> b == a)
  }

  ghost predicate AllDrifted(a: Services, b: Services) {
    a.Keys == b.Keys && forall n :: n in a ==> Drifted(a[n], b[n])
  }

  /** Every service but one has merely drifted. */
  ghost predicate OthersDrifted(a: Services, b: Services, name: ServiceName) {
    a.Keys == b.Keys && forall n :: n in a && n != name ==> Drifted(a[n], b[n])
  }

  ghost predicate AllSettled(services: Services, next: nat) {
    services.Keys == ALL_SERVICES && forall n :: n in services ==> Settled(services[n], next)
  }

  /** Pods as at the start everywhere, and exactly the services in `down` unhealthy. */
  ghost predicate Kept(start: Services, now: Services, down: set<ServiceName>) {
    && start.Keys == now.Keys == ALL_SERVICES
    && forall n :: n in start ==>
         now[n].pods == start[n].pods && now[n].desired == start[n].desired && (now[n].healthy <==> n !in down)
  }

  lemma KeptDrifted(start: Services, now: Services, next: nat)
    requires AllSettled(start, next)
    ensures Kept(start, now, {}) <==> AllDrifted(start, now)
  {
    assert forall n :: n in start ==> Settled(start[n], next);
  }

  lemma DriftedSettled(a: Services, b: Services, next: nat)
    requires AllSettled(a, next) && AllDrifted(a, b)
    ensures AllSettled(b, next)
  {
    forall n | n in b ensures Settled(b[n], next) {
      assert Settled(a[n], next) && Drifted(a[n], b[n]);
    }
  }

  /** Assigning to one service and pausing leaves the others merely drifted since the start. */
  lemma OthersDriftOn(start: Services, before: Services, now: Services, name: ServiceName, s: Service)
    requires name in before && OthersDrifted(start, before, name) && AllDrifted(before[name := s], now)
    ensures OthersDrifted(start, now, name) && name in now && Drifted(s, now[name])
  {
    forall n | n in start && n != name ensures Drifted(start[n], now[n]) {
      assert Drifted(start[n], before[n]) && Drifted(before[n], now[n]);
    }
    assert Drifted(before[name := s][name], now[name]);
  }

  lemma OthersSettled(a: Services, b: Services, name: ServiceName, next: nat, next': nat)
    requires AllSettled(a, next) && OthersDrifted(a, b, name) && name in b && Settled(b[name], next') && next <= next'
    ensures AllSettled(b, next')
  {
    forall n | n in b ensures Settled(b[n], next') {
      assert n != name ==> Settled(a[n], next) && Drifted(a[n], b[n]);
    }
  }

  function Initial(first: nat): Service {
    var pods := Cons(Pod(first, Running, true),
                     Cons(Pod(first + 1, Running, true), Cons(Pod(first + 2, Running, true), Nil)));
    Service(3, pods, true, 45.0, 80.0, 0.001)
  }

  lemma InitialSettled(first: nat, next: nat)
    requires first + 2 < next
    ensures Settled(Initial(first), next)
  {
    var pods := Initial(first).pods;
    assert Size(pods.tail.tail.tail) == 0 && Size(pods.tail.tail) == 1 + Size(pods.tail.tail.tail);
    assert AllReady(pods.tail.tail) && UniqueNames(pods.tail.tail) && Size(pods.tail.tail) == 1;
    assert AllReady(pods.tail) && Size(pods.tail) == 2;
    assert Names(pods.tail.tail) == {first + 2};
    assert Names(pods.tail) == {first + 1, first + 2};
    assert Names(pods) == {first, first + 1, first + 2};
  }

  /** What an action that leaves pods and health alone does: assign metrics and pause, in any pattern. */
  datatype Change = Pause | Assign(service: ServiceName, latency: real, rps: real, errorRate: real)

  /** The cluster as seen at one pause after another, the latest outermost. */
  datatype Sights = Nothing | Sight(earlier: Sights, state: Services)

  function Prev(sights: Sights): Sights {
    if sights.Sight? then sights.earlier else sights
  }

  /** At that pause this was the service. */
  predicate Showed(sights: Sights, name: ServiceName, s: Service) {
    sights.Sight? && name in sights.state && sights.state[name] == s
  }

  datatype Kind = KillPod | MemoryLeak | DiskFull | CpuPressure | NetworkPartition
  datatype Action =
    | On(kind: Kind, service: ServiceName)
    | RegionOutage
    | SpotReclaim
    | ExpireJwt
    | DbFailure
    | CertExpiry
    | CascadingFailure
    | SecretLeak
    | MetricsOnly(changes: seq<Change>)

  /** The pod count an action leaves behind: only a scale-up and an outage change it, and nothing but their targets. */
  function Scaled(action: Action, name: ServiceName, n: nat, desired: nat): nat {
    match action
    case On(CpuPressure, service) => if service == name then n + 2 else n
    case RegionOutage => if n / 2 < desired then desired else n / 2
    case _ => n
  }

  function PodsAfter(queue: seq<Action>, name: ServiceName, n: nat, desired: nat): nat {
    if queue == [] then n
    else Scaled(queue[|queue| - 1], name, PodsAfter(queue[..|queue| - 1], name, n, desired), desired)
  }

  ghost predicate Resized(a: Services, b: Services, action: Action) {
    && a.Keys == b.Keys == ALL_SERVICES
    && forall n :: n in a ==>
         b[n].desired == a[n].desired && Size(b[n].pods) == Scaled(action, n, Size(a[n].pods), a[n].desired)
  }

  ghost predicate RunResized(a: Services, b: Services, queue: seq<Action>) {
    && a.Keys == b.Keys == ALL_SERVICES
    && forall n :: n in a ==>
         b[n].desired == a[n].desired && Size(b[n].pods) == PodsAfter(queue, n, Size(a[n].pods), a[n].desired)
  }

  lemma RunOneMore(a: Services, b: Services, c: Services, queue: seq<Action>, action: Action)
    requires RunResized(a, b, queue) && Resized(b, c, action)
    ensures RunResized(a, c, queue + [action])
  {
    assert (queue + [action])[..|queue|] == queue;
  }

  lemma DriftedResized(a: Services, b: Services, action: Action)
    requires a.Keys == ALL_SERVICES && AllDrifted(a, b)
    requires forall n, k: nat, d: nat :: Scaled(action, n, k, d) == k
    ensures Resized(a, b, action)
  {
  }

  lemma OneResized(a: Services, b: Services, name: ServiceName, action: Action)
    requires a.Keys == ALL_SERVICES && OthersDrifted(a, b, name) && name in a
    requires b[name].desired == a[name].desired
    requires Size(b[name].pods) == Scaled(action, name, Size(a[name].pods), a[name].desired)
    requires forall n, k: nat, d: nat :: n != name ==> Scaled(action, n, k, d) == k
    ensures Resized(a, b, action)
  {
  }

  lemma DriftResizes(a: Services, b: Services, c: Services, queue: seq<Action>)
    requires RunResized(a, b, queue) && AllDrifted(b, c)
    ensures RunResized(a, c, queue)
  {
  }

  lemma OneRound(start: Services, before: Services, drifted: Services, after: Services, queue: seq<Action>, i: nat)
    requires i < |queue| && RunResized(start, before, queue[..i])
    requires AllDrifted(before, drifted) && Resized(drifted, after, queue[i])
    ensures RunResized(start, after, queue[..i + 1])
  {
    DriftResizes(start, before, drifted, queue[..i]);
    RunOneMore(start, drifted, after, queue[..i], queue[i]);
    assert queue[..i + 1] == queue[..i] + [queue[i]];
  }

  class Cluster {
    var services: Services
    var locked: bool
    var nextName: nat

    /** What anybody looking during the pauses of actions has seen so far. */
    ghost var seen: Sights

    /** Whenever no action holds the lock, every service is settled. */
    ghost predicate Valid()
      reads this
    {
      services.Keys == ALL_SERVICES && (!locked ==> AllSettled(services, nextName))
    }

    constructor ()
      ensures Valid() && !locked
    {
      locked := false;
      seen := Nothing;
      nextName := 12;
      services := map[
        ApiGateway := Initial(0), UserService := Initial(3),
        TaskService := Initial(6), NotificationService := Initial(9)];
      InitialSettled(0, 12);
      InitialSettled(3, 12);
      InitialSettled(6, 12);
      InitialSettled(9, 12);
    }

    /** One round of the ambient loop, at any moment, lock or no lock. */
    method Ambient(noise: ServiceName -> Noise)
      requires Valid()
      modifies this`services
      ensures Valid() && AllDrifted(old(services), services)
      ensures forall n :: n in services ==> services[n] == Tick(old(services)[n], noise(n))
    {
      ghost var before := services;
      for i := 0 to |SERVICE_NAMES|
        invariant services.Keys == before.Keys
        invariant forall n :: n in services ==>
                    services[n] == if n in SERVICE_NAMES[..i] then Tick(before[n], noise(n)) else before[n]
      {
        var name := SERVICE_NAMES[i];
        services := services[name := Tick(services[name], noise(name))];
      }
      assert SERVICE_NAMES[..|SERVICE_NAMES|] == SERVICE_NAMES;
      assert AllDrifted(before, services);
      if !locked {
        forall n | n in services ensures Settled(services[n], nextName) {
          assert Settled(before[n], nextName);
        }
      }
    }

    /** Ambient rounds while no action runs. */
    method AmbientRounds(rounds: seq<ServiceName -> Noise>)
      requires Valid() && !locked
      modifies this`services
      ensures Valid() && AllDrifted(old(services), services)
    {
      for i := 0 to |rounds|
        invariant Valid() && AllDrifted(old(services), services)
      {
        Ambient(rounds[i]);
      }
    }

    /** A pause inside an action: any number of ambient rounds; every other action waits for the lock. */
    method Wait()
      requires Valid() && locked
      modifies this`services, this`seen
      ensures Valid() && AllDrifted(old(services), services)
      ensures seen == Sight(old(seen), old(services))
    {
      seen := Sight(seen, services);
      var rounds: nat := *;
      while rounds > 0
        invariant Valid() && AllDrifted(old(services), services) && seen == Sight(old(seen), old(services))
      {
        var noise: ServiceName -> Noise := *;
        Ambient(noise);
        rounds := rounds - 1;
      }
    }

    /** A random suffix no pod carries. */
    method NewName() returns (name: nat)
      modifies this`nextName
      ensures name == old(nextName) && nextName == name + 1
    {
      name := nextName;
      nextName := nextName + 1;
    }

    /** An action holds the lock, and the other services have only drifted since it began. */
    ghost predicate Acting(start: Services, name: ServiceName)
      reads this
    {
      locked && services.Keys == ALL_SERVICES && name in ALL_SERVICES && OthersDrifted(start, services, name)
    }

    /** Assign to the fields of one service object, then pause: what the action finds when it wakes up. */
    method Become(name: ServiceName, s: Service, ghost start: Services) returns (now: Service)
      requires Acting(start, name)
      modifies this`services, this`seen
      ensures Acting(start, name) && services[name] == now && Drifted(s, now)
      ensures seen == Sight(old(seen), old(services)[name := s])
    {
      ghost var before := services;
      services := services[name := s];
      assert services.Keys == ALL_SERVICES;
      Wait();
      now := services[name];
      OthersDriftOn(start, before, services, name, s);
    }

    /** The last assignments of an action; the service is settled again and the lock is released. */
    method Finish(name: ServiceName, s: Service, ghost start: Services, ghost first: nat)
      requires Acting(start, name) && AllSettled(start, first) && first <= nextName && Settled(s, nextName)
      modifies this`services, this`locked
      ensures Valid() && !locked && OthersDrifted(start, services, name) && name in services && services[name] == s
    {
      services := services[name := s];
      assert services.Keys == ALL_SERVICES;
      OthersSettled(start, services, name, first, nextName);
      locked := false;
    }

    /** The replica set appends a replacement and waits for it to start. */
    method Schedule(name: ServiceName, s: Service, creating: bool, ghost start: Services)
      returns (now: Service, newPod: nat)
      requires Acting(start, name) && NamesBelow(s.pods, nextName)
      modifies this`services, this`nextName, this`seen
      ensures Acting(start, name) && services[name] == now
      ensures seen.Sight? && (if creating then Prev(Prev(seen)) else Prev(seen)) == old(seen)
      ensures newPod == old(nextName) && nextName == newPod + 1
      ensures Drifted(s.(pods := Add(s.pods, Pod(newPod, if creating then ContainerCreating else Pending, false))), now)
    {
      newPod := NewName();
      now := Become(name, s.(pods := Add(s.pods, Pod(newPod, Pending, false))), start);
      if creating {
        MarkAdded(s.pods, Pod(newPod, Pending, false), ContainerCreating, false);
        now := Become(name, now.(pods := Mark(now.pods, newPod, ContainerCreating, false)), start);
      }
    }

    // The actions, each from the moment it holds the lock. `start` is what it found then.

    /** Deleting the first pod, up to the failing readiness probe; `failed` is the service just before it fails. */
    method Delete(service: ServiceName, ghost start: Services)
      returns (s: Service, latency: real, errors: real, ghost failed: Service)
      requires locked && services == start && AllSettled(start, nextName) && service in start
      modifies this`services, this`seen
      ensures Acting(start, service) && services[service] == s && Drifted(start[service], failed)
      ensures Prev(Prev(Prev(seen))) == old(seen) && Showed(seen, service, s) && failed.pods.Cons?
      ensures latency == failed.latency && errors == failed.errorRate
      ensures s == failed.(pods := Cons(Pod(failed.pods.head.name, Terminating, false), failed.pods.tail),
                           healthy := false, latency := failed.latency * 2.8, errorRate := 0.08,
                           rps := failed.rps * 0.65)
    {
      s := services[service];
      ghost var pods := s.pods;
      var target := s.pods.head.name;
      Replaced(pods, nextName, ContainerCreating);
      s := Become(service, s, start);
      s := Become(service, s.(pods := Mark(s.pods, target, Terminating, true)), start);
      failed := s.(pods := pods);
      latency, errors := s.latency, s.errorRate;
      s := Become(service, s.(pods := Mark(s.pods, target, Terminating, false), healthy := false,
                              latency := s.latency * 2.8, errorRate := 0.08, rps := s.rps * 0.65), start);
    }

    /**
     Delete the first pod and watch its replacement. One ready pod in place of another, and exactly the
     metrics the service had when it failed: `failed` is the service at that moment.
     */
    method KillPod(service: ServiceName, ghost start: Services) returns (ghost failed: Service)
      requires locked && services == start && AllSettled(start, nextName) && service in start
      modifies this
      ensures Valid() && !locked && OthersDrifted(start, services, service) && service in services
      ensures Drifted(start[service], failed)
      ensures Prev(Prev(Prev(Prev(Prev(Prev(seen)))))) == old(seen) && failed.pods.Cons?
      ensures Showed(Prev(Prev(Prev(seen))), service,
                     failed.(pods := Cons(Pod(failed.pods.head.name, Terminating, false), failed.pods.tail),
                             healthy := false, latency := failed.latency * 2.8, errorRate := 0.08,
                             rps := failed.rps * 0.65))
      ensures services[service] == failed.(pods := Add(failed.pods.tail, Pod(old(nextName), Running, true)))
      ensures Size(services[service].pods) == Size(start[service].pods)
      ensures services[service].desired == start[service].desired
    {
      ghost var first := nextName;
      var target := services[service].pods.head.name;
      Replaced(services[service].pods, nextName, ContainerCreating);
      var s, oldLatency, oldErrors;
      s, oldLatency, oldErrors, failed := Delete(service, start);
      var newPod;
      s, newPod := Schedule(service, s, true, start);
      s := Become(service, s.(pods := Without(Mark(s.pods, newPod, Running, true), target)), start);
      Finish(service, s.(latency := oldLatency, errorRate := oldErrors, rps := s.rps * (1.0 / 0.65), healthy := true),
             start, first);
    }

    /** The leaking pod is replaced; the latency is the one from before the leak, which `leaking` records. */
    method MemoryLeak(service: ServiceName, ghost start: Services) returns (ghost leaking: Service)
      requires locked && services == start && AllSettled(start, nextName) && service in start
      modifies this
      ensures Valid() && !locked && OthersDrifted(start, services, service) && service in services
      ensures Drifted(start[service], leaking) && services[service].latency == leaking.latency
      ensures services[service].pods == Add(start[service].pods.tail, Pod(old(nextName), Running, true))
      ensures Size(services[service].pods) == Size(start[service].pods)
      ensures services[service].desired == start[service].desired
      ensures Prev(Prev(Prev(Prev(seen)))) == old(seen)
      ensures Showed(Prev(Prev(seen)), service, leaking.(latency := leaking.latency * 1.3))
      ensures Prev(seen).Sight? && service in Prev(seen).state && !Prev(seen).state[service].healthy
    {
      ghost var first := nextName;
      var s := services[service];
      ghost var pods := s.pods;
      var target := s.pods.head.name;
      Replaced(pods, nextName, Pending);
      s := Become(service, s, start);
      leaking := s;
      var oldLatency := s.latency;
      s := Become(service, s.(latency := s.latency * 1.3), start);
      s := Become(service, s.(pods := Mark(s.pods, target, Terminating, false), healthy := false), start);
      var newPod;
      s, newPod := Schedule(service, s, false, start);
      Finish(service, s.(pods := Without(Mark(s.pods, newPod, Running, true), target),
                         latency := oldLatency, healthy := true), start, first);
    }

    /** The evicted pod is replaced; the error rate is the one from before the disk filled, which `filling` records. */
    method DiskFull(service: ServiceName, ghost start: Services) returns (ghost filling: Service)
      requires locked && services == start && AllSettled(start, nextName) && service in start
      modifies this
      ensures Valid() && !locked && OthersDrifted(start, services, service) && service in services
      ensures Drifted(start[service], filling) && services[service].errorRate == filling.errorRate
      ensures services[service].pods == Add(start[service].pods.tail, Pod(old(nextName), Running, true))
      ensures Size(services[service].pods) == Size(start[service].pods)
      ensures services[service].desired == start[service].desired
      ensures Prev(Prev(Prev(Prev(seen)))) == old(seen) && Showed(Prev(Prev(seen)), service, filling.(errorRate := 0.3))
      ensures Prev(seen).Sight? && service in Prev(seen).state && !Prev(seen).state[service].healthy
    {
      ghost var first := nextName;
      var s := services[service];
      ghost var pods := s.pods;
      var target := s.pods.head.name;
      Replaced(pods, nextName, Pending);
      s := Become(service, s, start);
      filling := s;
      var oldErrors := s.errorRate;
      s := Become(service, s.(errorRate := 0.3), start);
      s := Become(service, s.(pods := Mark(s.pods, target, Terminating, false), healthy := false), start);
      var newPod;
      s, newPod := Schedule(service, s, false, start);
      Finish(service, s.(pods := Without(Mark(s.pods, newPod, Running, true), target),
                         errorRate := oldErrors, healthy := true), start, first);
    }

    /** One gateway pod is drained and replaced; the service counts as healthy all the while. */
    method SpotReclaim(ghost start: Services)
      requires locked && services == start && AllSettled(start, nextName)
      modifies this
      ensures Valid() && !locked && OthersDrifted(start, services, ApiGateway) && ApiGateway in services
      ensures services[ApiGateway].pods == Add(start[ApiGateway].pods.tail, Pod(old(nextName), Running, true))
      ensures Size(services[ApiGateway].pods) == Size(start[ApiGateway].pods)
      ensures services[ApiGateway].desired == start[ApiGateway].desired
      ensures Prev(Prev(Prev(seen))) == old(seen) && Prev(seen).Sight? && ApiGateway in Prev(seen).state
      ensures start[ApiGateway].pods.Cons?
      ensures Prev(seen).state[ApiGateway].pods
           == Cons(Pod(start[ApiGateway].pods.head.name, Terminating, false), start[ApiGateway].pods.tail)
    {
      ghost var first := nextName;
      var s := services[ApiGateway];
      ghost var pods := s.pods;
      Replaced(pods, nextName, Pending);
      s := Become(ApiGateway, s, start);
      var target := s.pods.head.name;
      s := Become(ApiGateway, s.(pods := Mark(s.pods, target, Terminating, false)), start);
      var newPod;
      s, newPod := Schedule(ApiGateway, s, false, start);
      Finish(ApiGateway, s.(pods := Without(Mark(s.pods, newPod, Running, true), target)), start, first);
    }

    /** The autoscaler adds two pods for good. */
    method CpuPressure(service: ServiceName, ghost start: Services)
      requires locked && services == start && AllSettled(start, nextName) && service in start
      modifies this
      ensures Valid() && !locked && OthersDrifted(start, services, service) && service in services
      ensures services[service].pods
           == Add(Add(start[service].pods, Pod(old(nextName), Running, true)), Pod(old(nextName) + 1, Running, true))
      ensures Size(services[service].pods) == Size(start[service].pods) + 2
      ensures services[service].desired == start[service].desired
    {
      ghost var first, pods := nextName, services[service].pods;
      var s := services[service];
      s := Load(service, s, start);
      s := LoadedScaleUp(service, s, start);
      ScaledUp(pods, first, first + 1);
      s := Relax(service, s.(pods := ReadyLast(s.pods, 2)), start);
      Finish(service, s, start, first);
    }

    method LoadedScaleUp(service: ServiceName, s: Service, ghost start: Services) returns (now: Service)
      requires Acting(start, service) && NamesBelow(s.pods, nextName)
      modifies this`services, this`nextName, this`seen
      ensures Acting(start, service) && nextName == old(nextName) + 2
      ensures now.pods == Add(Add(s.pods, Pod(old(nextName), Pending, false)), Pod(old(nextName) + 1, Pending, false))
      ensures now.healthy == s.healthy && now.desired == s.desired
    {
      now := Become(service, s, start);
      now := AddTwo(service, now, start);
    }

    method AddTwo(service: ServiceName, s: Service, ghost start: Services) returns (now: Service)
      requires Acting(start, service) && NamesBelow(s.pods, nextName)
      modifies this`services, this`nextName, this`seen
      ensures Acting(start, service) && nextName == old(nextName) + 2
      ensures now.pods == Add(Add(s.pods, Pod(old(nextName), Pending, false)), Pod(old(nextName) + 1, Pending, false))
      ensures now.healthy == s.healthy && now.desired == s.desired
    {
      var one, two;
      now, one := Schedule(service, s, false, start);
      AddFacts(s.pods, Pod(one, Pending, false));
      now, two := Schedule(service, now, false, start);
    }

    /** The zone fails, and nothing changes until the nodes are replaced. */
    method GoDown(ghost start: Services)
      requires locked && services == start && start.Keys == ALL_SERVICES
      modifies this`services, this`seen
      ensures AllDown(start, services)
      ensures seen.Sight? && seen.earlier == old(seen) && AllDown(start, seen.state)
    {
      StrikeAll(start);
      ghost var struck := services;
      Wait();
      DownStays(start, struck, services);
    }

    /** Half of every service goes down and comes back on new nodes. */
    method RegionOutage(ghost start: Services)
      requires locked && services == start && AllSettled(start, nextName)
      modifies this
      ensures Valid() && !locked && AllSettled(services, nextName)
      ensures AllFailedOver(start, services, nextName)
      ensures seen.Sight? && seen.earlier == old(seen) && AllDown(start, seen.state)
    {
      GoDown(start);
      RecoverAll(start);
      FailedOverSettled(start, services, nextName);
      locked := false;
    }

    method StrikeAll(ghost start: Services)
      requires services == start && start.Keys == ALL_SERVICES
      modifies this`services
      ensures AllDown(start, services)
    {
      for i := 0 to |SERVICE_NAMES|
        invariant services.Keys == ALL_SERVICES
        invariant forall n :: n in start ==>
                    services[n] == if n in SERVICE_NAMES[..i] then Outage(start[n]) else start[n]
      {
        var name := SERVICE_NAMES[i];
        services := services[name := Outage(services[name])];
      }
      assert SERVICE_NAMES[..|SERVICE_NAMES|] == SERVICE_NAMES;
    }

    method RecoverAll(ghost start: Services)
      requires AllSettled(start, nextName)
      requires AllDown(start, services)
      modifies this`services, this`nextName
      ensures AllFailedOver(start, services, nextName)
    {
      ghost var first := nextName;
      for i := 0 to |SERVICE_NAMES|
        invariant nextName >= first && Recovering(start, services, i, nextName)
      {
        var name := SERVICE_NAMES[i];
        ghost var before, names := services, nextName;
        NotYetRecovered(start, services, i, nextName);
        Recover(name, start[name], first);
        RecoveredOne(start, before, services, i, names, nextName);
      }
      assert SERVICE_NAMES[..|SERVICE_NAMES|] == SERVICE_NAMES;
    }

    /** One service after the outage: survivors, topped up, with the old load. */
    method Recover(name: ServiceName, ghost before: Service, ghost first: nat)
      requires name in services && services[name] == Outage(before) && Settled(before, first) && first <= nextName
      modifies this`services, this`nextName
      ensures nextName >= old(nextName) && name in services && FailedOver(before, services[name], nextName)
      ensures services == old(services)[name := services[name]]
    {
      HalfSurvive(before.pods);
      var s := services[name];
      var pods := TopUp(Survivors(s.pods), s.desired);
      services := services[name := s.(pods := pods, healthy := true, rps := s.rps / 0.55, latency := s.latency / 1.5)];
    }

    /** while len(pods) < desired: append a running pod. */
    method TopUp(pods: Pods, desired: nat) returns (now: Pods)
      requires AllReady(pods) && UniqueNames(pods) && NamesBelow(pods, nextName)
      modifies this`nextName
      ensures nextName >= old(nextName)
      ensures AllReady(now) && UniqueNames(now) && NamesBelow(now, nextName)
      ensures Size(now) == if Size(pods) < desired then desired else Size(pods)
    {
      now := pods;
      while Size(now) < desired
        invariant nextName >= old(nextName)
        invariant AllReady(now) && UniqueNames(now) && NamesBelow(now, nextName)
        invariant Size(now) == Size(pods) || Size(pods) < Size(now) <= desired
        decreases desired - Size(now)
      {
        var name := NewName();
        AddFacts(now, Pod(name, Running, true));
        now := Add(now, Pod(name, Running, true));
      }
    }

    /** The gateway fails until clients hold new tokens; then it is exactly as before. */
    method ExpireJwt(ghost start: Services)
      requires locked && services == start && AllSettled(start, nextName)
      modifies this
      ensures Valid() && !locked && OthersDrifted(start, services, ApiGateway)
      ensures ApiGateway in services && services[ApiGateway] == start[ApiGateway]
      ensures ApiGateway in start
              && seen == Sight(old(seen), start[ApiGateway := start[ApiGateway].(errorRate := 0.3, healthy := false)])
    {
      var api := services[ApiGateway];
      var oldErrors := api.errorRate;
      api := Become(ApiGateway, api.(errorRate := 0.3, healthy := false), start);
      Finish(ApiGateway, api.(errorRate := oldErrors, healthy := true), start, nextName);
    }

    /** The gateway's certificate expires a while into the action; `expiring` records the gateway at that moment. */
    method CertExpiry(ghost start: Services) returns (ghost expiring: Service)
      requires locked && services == start && AllSettled(start, nextName)
      modifies this
      ensures Valid() && !locked && OthersDrifted(start, services, ApiGateway)
      ensures Drifted(start[ApiGateway], expiring)
      ensures ApiGateway in services && services[ApiGateway] == expiring
      ensures Prev(Prev(seen)) == old(seen)
      ensures Showed(seen, ApiGateway, expiring.(healthy := false, errorRate := 0.85))
    {
      var api := Become(ApiGateway, services[ApiGateway], start);
      expiring := api;
      var oldErrors := api.errorRate;
      api := Become(ApiGateway, api.(healthy := false, errorRate := 0.85), start);
      Finish(ApiGateway, api.(errorRate := oldErrors, healthy := true), start, nextName);
    }

    /** A rolling restart takes the user service out of rotation and back, changing nothing else. */
    method SecretLeak(ghost start: Services)
      requires locked && services == start && AllSettled(start, nextName)
      modifies this
      ensures Valid() && !locked && AllDrifted(start, services)
      ensures Prev(Prev(Prev(seen))) == old(seen) && Prev(seen).Sight? && UserService in Prev(seen).state
      ensures !Prev(seen).state[UserService].healthy
    {
      var user := Become(UserService, services[UserService], start);
      user := Become(UserService, user.(healthy := false), start);
      user := Become(UserService, user.(healthy := true), start);
      Finish(UserService, user, start, nextName);
    }

    /** Assign to one service object of an action that touches several; its pods stay. */
    method Set(
      name: ServiceName, s: Service, ghost start: Services, ghost was: set<ServiceName>, ghost down: set<ServiceName>)
      requires Kept(start, services, was) && name in services
      requires s.pods == services[name].pods && s.desired == services[name].desired
      requires down == if s.healthy then was - {name} else was + {name}
      modifies this`services
      ensures services == old(services)[name := s] && Kept(start, services, down)
    {
      services := services[name := s];
    }

    /** A pause of such an action: what is down stays exactly as it is. */
    method Rest(ghost start: Services, ghost down: set<ServiceName>)
      requires locked && Kept(start, services, down)
      modifies this`services, this`seen
      ensures Kept(start, services, down) && AllDrifted(old(services), services)
      ensures seen == Sight(old(seen), old(services))
      ensures forall n :: n in down && n in services ==> services[n] == old(services)[n]
    {
      Wait();
    }

    /** The last pause of an action that has everything healthy again. */
    method Release(ghost start: Services)
      requires locked && AllSettled(start, nextName) && Kept(start, services, {})
      modifies this`services, this`locked, this`seen
      ensures Valid() && !locked && AllDrifted(start, services)
      ensures seen == Sight(old(seen), old(services))
      ensures AllDrifted(start, old(services)) && AllDrifted(old(services), services)
    {
      KeptDrifted(start, services, nextName);
      Wait();
      DriftedSettled(start, services, nextName);
      locked := false;
    }

    /** All traffic to the service fails; at the moment `healed` records, the service is exactly as before. */
    method NetworkPartition(service: ServiceName, ghost start: Services) returns (ghost healed: Services)
      requires locked && services == start && AllSettled(start, nextName) && service in start
      modifies this
      ensures Valid() && !locked && AllDrifted(start, services)
      ensures AllDrifted(start, healed) && AllDrifted(healed, services)
      ensures healed[service] == start[service]
      ensures var down := start[service].(healthy := false, errorRate := 0.95, latency := 30000.0);
              seen == Sight(Sight(old(seen), start[service := down]), healed)
    {
      KeptDrifted(start, services, nextName);
      var s := services[service];
      var oldErrors, oldLatency := s.errorRate, s.latency;
      Set(service, s.(healthy := false, errorRate := 0.95, latency := 30000.0), start, {}, {service});
      Rest(start, {service});
      Set(service, services[service].(errorRate := oldErrors, latency := oldLatency, healthy := true),
          start, {service}, {});
      healed := services;
      Release(start);
    }

    /** A service with a database while the database is down. */
    function DatabaseDown(s: Service): Service {
      s.(healthy := false, errorRate := 0.45, latency := s.latency * 3.5)
    }

    method BreakDatabase(ghost start: Services)
      requires locked && services == start && AllSettled(start, nextName)
      modifies this`services, this`seen
      ensures Kept(start, services, {UserService, TaskService})
      ensures services[UserService] == DatabaseDown(start[UserService])
      ensures services[TaskService] == DatabaseDown(start[TaskService])
      ensures seen == Sight(old(seen), start[UserService := DatabaseDown(start[UserService])][
                                       TaskService := DatabaseDown(start[TaskService])])
    {
      KeptDrifted(start, services, nextName);
      Set(UserService, DatabaseDown(services[UserService]), start, {}, {UserService});
      Set(TaskService, DatabaseDown(services[TaskService]), start, {UserService}, {UserService, TaskService});
      Rest(start, {UserService, TaskService});
    }

    /** Both services with a database fail together and, at the moment `healed` records, are exactly as before. */
    method DbFailure(ghost start: Services) returns (ghost healed: Services)
      requires locked && services == start && AllSettled(start, nextName)
      modifies this
      ensures Valid() && !locked && AllDrifted(start, services)
      ensures AllDrifted(start, healed) && AllDrifted(healed, services)
      ensures healed[UserService] == start[UserService] && healed[TaskService] == start[TaskService]
      ensures var user, task := start[UserService], start[TaskService];
              seen == Sight(Sight(old(seen),
                start[UserService := user.(healthy := false, errorRate := 0.45, latency := user.latency * 3.5)][
                TaskService := task.(healthy := false, errorRate := 0.45, latency := task.latency * 3.5)]), healed)
    {
      var user, task := services[UserService], services[TaskService];
      KeptDrifted(start, services, nextName);
      BreakDatabase(start);
      Set(UserService, services[UserService].(healthy := true, latency := user.latency, errorRate := user.errorRate),
          start, {UserService, TaskService}, {TaskService});
      Set(TaskService, services[TaskService].(healthy := true, latency := task.latency, errorRate := task.errorRate),
          start, {TaskService}, {});
      healed := services;
      Release(start);
    }

    /** Everybody recovers from the cascade. */
    method Contain(ghost start: Services)
      requires Kept(start, services, {UserService})
      modifies this`services
      ensures Kept(start, services, {}) && UserService in old(services)
      ensures var user := old(services)[UserService];
              services[UserService] == user.(healthy := true, errorRate := 0.001, latency := user.latency / 4.0)
      ensures services[TaskService].errorRate == services[ApiGateway].errorRate == 0.001
    {
      var user, task := services[UserService], services[TaskService];
      Set(UserService, user.(healthy := true, errorRate := 0.001, latency := user.latency / 4.0),
          start, {UserService}, {});
      Set(TaskService, task.(errorRate := 0.001, latency := task.latency / 2.2), start, {}, {});
      Set(ApiGateway, services[ApiGateway].(errorRate := 0.001), start, {}, {});
    }

    /** The task service and the gateway degrade while the user service stays down. */
    method Spread(ghost start: Services)
      requires locked && Kept(start, services, {UserService})
      modifies this`services, this`seen
      ensures Kept(start, services, {UserService}) && services[UserService] == old(services)[UserService]
      ensures Prev(Prev(seen)) == Sight(old(seen), old(services))
      ensures Prev(seen).Sight? && TaskService in Prev(seen).state
      ensures Prev(seen).state[TaskService].errorRate == 0.35
      ensures seen.Sight? && ApiGateway in seen.state && seen.state[ApiGateway].errorRate == 0.15
    {
      Rest(start, {UserService});
      var task := services[TaskService];
      Set(TaskService, task.(errorRate := 0.35, latency := task.latency * 2.2), start, {UserService}, {UserService});
      Rest(start, {UserService});
      Set(ApiGateway, services[ApiGateway].(errorRate := 0.15), start, {UserService}, {UserService});
      Rest(start, {UserService});
    }

    /** The user service goes down, then the others degrade one after another. */
    method Cascade(ghost start: Services)
      requires locked && services == start && AllSettled(start, nextName)
      modifies this`services, this`seen
      ensures Kept(start, services, {UserService}) && seen.Sight?
      ensures var user := start[UserService];
              var dead := user.(healthy := false, errorRate := 0.92, latency := user.latency * 4.0);
              services[UserService] == dead && Prev(Prev(seen)) == Sight(old(seen), start[UserService := dead])
      ensures Prev(seen).Sight? && TaskService in Prev(seen).state && Prev(seen).state[TaskService].errorRate == 0.35
      ensures ApiGateway in seen.state && seen.state[ApiGateway].errorRate == 0.15
    {
      KeptDrifted(start, services, nextName);
      var user := services[UserService];
      Set(UserService, user.(healthy := false, errorRate := 0.92, latency := user.latency * 4.0),
          start, {}, {UserService});
      Spread(start);
    }

    /** The user service dies and drags others along; latency and load come back exactly, errors at the floor. */
    method CascadingFailure(ghost start: Services) returns (ghost healed: Services)
      requires locked && services == start && AllSettled(start, nextName)
      modifies this
      ensures Valid() && !locked && AllDrifted(start, services)
      ensures AllDrifted(start, healed) && AllDrifted(healed, services)
      ensures healed[UserService] == start[UserService].(errorRate := 0.001)
      ensures healed[TaskService].errorRate == healed[ApiGateway].errorRate == 0.001
      ensures var user := start[UserService];
              Prev(Prev(Prev(seen))) == Sight(old(seen), start[
                UserService := user.(healthy := false, errorRate := 0.92, latency := user.latency * 4.0)])
      ensures Prev(Prev(seen)).Sight? && TaskService in Prev(Prev(seen)).state
      ensures Prev(Prev(seen)).state[TaskService].errorRate == 0.35
      ensures Prev(seen).Sight? && ApiGateway in Prev(seen).state
      ensures Prev(seen).state[ApiGateway].errorRate == 0.15
    {
      Cascade(start);
      Contain(start);
      healed := services;
      Release(start);
    }

    /** The remaining actions, whatever metrics they assign between their pauses. */
    method ChangeMetrics(changes: seq<Change>, ghost start: Services)
      requires locked && services == start && AllSettled(start, nextName)
      modifies this`services, this`locked, this`seen
      ensures Valid() && !locked && AllDrifted(start, services)
    {
      for i := 0 to |changes|
        invariant Valid() && locked && AllDrifted(start, services)
      {
        match changes[i] {
          case Pause =>
            Wait();
          case Assign(name, latency, rps, errorRate) =>
            if name in services {
              services := services[name := services[name].(latency := latency, rps := rps, errorRate := errorRate)];
              assert Settled(start[name], nextName);
            }
        }
      }
      DriftedSettled(start, services, nextName);
      locked := false;
    }

    /** A triggered action: an unknown service is ignored; otherwise wait for the lock, run, release. */
    method Act(action: Action)
      requires Valid() && !locked
      modifies this
      ensures Valid() && !locked && Resized(old(services), services, action)
    {
      if action.On? && action.service !in services {
        return;
      }
      locked := true;
      ghost var start := services;
      match action {
        case RegionOutage =>
          RegionOutage(services);
        case SpotReclaim =>
          SpotReclaim(services);
          OneResized(start, services, ApiGateway, action);
        case ExpireJwt =>
          ExpireJwt(services);
          OneResized(start, services, ApiGateway, action);
        case DbFailure =>
          ghost var healed := DbFailure(services);
          DriftedResized(start, services, action);
        case CertExpiry =>
          ghost var expiring := CertExpiry(services);
          OneResized(start, services, ApiGateway, action);
        case CascadingFailure =>
          ghost var healed := CascadingFailure(services);
          DriftedResized(start, services, action);
        case SecretLeak =>
          SecretLeak(services);
          DriftedResized(start, services, action);
        case MetricsOnly(changes) =>
          ChangeMetrics(changes, services);
          DriftedResized(start, services, action);
        case On(kind, service) =>
          ActOn(kind, service);
      }
    }

    method ActOn(kind: Kind, service: ServiceName)
      requires locked && AllSettled(services, nextName) && service in services
      modifies this
      ensures Valid() && !locked && Resized(old(services), services, On(kind, service))
    {
      ghost var start := services;
      match kind {
        case KillPod => ghost var failed := KillPod(service, services);
        case MemoryLeak => ghost var leaking := MemoryLeak(service, services);
        case DiskFull => ghost var filling := DiskFull(service, services);
        case CpuPressure => CpuPressure(service, services);
        case NetworkPartition => ghost var healed := NetworkPartition(service, services);
      }
      OneResized(start, services, service, On(kind, service));
    }

    /**
     Any queue of actions, with ambient rounds before each: all services end, as they began, settled, with
     exactly the pods that the scale-ups and outages in the queue make of those at the start.
     */
    method RunAll(queue: seq<Action>, rounds: seq<seq<ServiceName -> Noise>>)
      requires Valid() && !locked && |rounds| == |queue|
      modifies this
      ensures Valid() && !locked && AllSettled(services, nextName)
      ensures RunResized(old(services), services, queue)
    {
      ghost var start := services;
      for i := 0 to |queue|
        invariant Valid() && !locked && RunResized(start, services, queue[..i])
      {
        ghost var before := services;
        AmbientRounds(rounds[i]);
        ghost var drifted := services;
        Act(queue[i]);
        OneRound(start, before, drifted, services, queue, i);
      }
      assert queue[..|queue|] == queue;
    }

    /** Six rounds of rising latency. */
    method Load(service: ServiceName, s: Service, ghost start: Services) returns (now: Service)
      requires Acting(start, service)
      modifies this`services, this`seen
      ensures Acting(start, service) && s.pods == now.pods && s.healthy == now.healthy && s.desired == now.desired
    {
      now := s;
      for i := 0 to 6
        invariant Acting(start, service) && s.pods == now.pods && s.healthy == now.healthy && s.desired == now.desired
      {
        now := Become(service, now, start);
        now := now.(latency := now.latency * 1.18, rps := now.rps * 0.92);
      }
    }

    /** Eight rounds of falling latency. */
    method Relax(service: ServiceName, s: Service, ghost start: Services) returns (now: Service)
      requires Acting(start, service)
      modifies this`services, this`seen
      ensures Acting(start, service) && s.pods == now.pods && s.healthy == now.healthy && s.desired == now.desired
    {
      now := s;
      for i := 0 to 8
        invariant Acting(start, service) && s.pods == now.pods && s.healthy == now.healthy && s.desired == now.desired
      {
        now := Become(service, now, start);
        now := now.(latency := Max(45.0, now.latency * 0.88));
      }
    }
  }

  /** A service the moment the zone goes down. */
  function Outage(s: Service): Service {
    s.(pods := Struck(s.pods), healthy := false, rps := s.rps * 0.55, latency := s.latency * 1.5)
  }

  /** Down means unhealthy, every other pod gone, barely half the load and half as much latency again. */
  lemma OutageExact(s: Service)
    requires AllReady(s.pods) && UniqueNames(s.pods)
    ensures var down := Outage(s);
            && !down.healthy && Size(Survivors(down.pods)) == Size(s.pods) / 2
            && down.rps == s.rps * 0.55 && down.latency == s.latency * 1.5
            && down.errorRate == s.errorRate && down.desired == s.desired
  {
    HalfSurvive(s.pods);
  }

  /** After the failover: half the pods rounded down or the desired number, and the very metrics from before. */
  predicate FailedOver(before: Service, after: Service, next: nat) {
    && Settled(after, next)
    && Size(after.pods) == (if Size(before.pods) / 2 < before.desired then before.desired else Size(before.pods) / 2)
    && after.latency == before.latency && after.rps == before.rps && after.errorRate == before.errorRate
    && after.desired == before.desired
  }

  ghost predicate AllDown(start: Services, now: Services) {
    start.Keys == now.Keys == ALL_SERVICES && forall n :: n in start ==> now[n] == Outage(start[n])
  }

  ghost predicate AllFailedOver(start: Services, now: Services, next: nat) {
    start.Keys == now.Keys == ALL_SERVICES && forall n :: n in start ==> FailedOver(start[n], now[n], next)
  }

  /** Nothing that is down drifts. */
  lemma DownStays(start: Services, before: Services, now: Services)
    requires AllDown(start, before) && AllDrifted(before, now)
    ensures AllDown(start, now)
  {
    forall n | n in start ensures now[n] == Outage(start[n]) {
      assert Drifted(before[n], now[n]);
    }
  }

  lemma FailedOverSettled(start: Services, now: Services, next: nat)
    requires AllFailedOver(start, now, next)
    ensures AllSettled(now, next)
  {
    forall n | n in now ensures Settled(now[n], next) {
      assert FailedOver(start[n], now[n], next);
    }
  }

  /** The first i services are back, the others still as the outage left them. */
  ghost predicate Recovering(start: Services, now: Services, i: nat, next: nat)
    requires i <= |SERVICE_NAMES|
  {
    && start.Keys == now.Keys == ALL_SERVICES
    && forall n :: n in start ==>
         if n in SERVICE_NAMES[..i] then FailedOver(start[n], now[n], next) else now[n] == Outage(start[n])
  }

  lemma NotYetRecovered(start: Services, now: Services, i: nat, next: nat)
    requires i < |SERVICE_NAMES| && Recovering(start, now, i, next)
    ensures SERVICE_NAMES[i] in start && now[SERVICE_NAMES[i]] == Outage(start[SERVICE_NAMES[i]])
  {
    assert SERVICE_NAMES[i] in ALL_SERVICES && SERVICE_NAMES[i] !in SERVICE_NAMES[..i];
  }

  lemma RecoveredOne(start: Services, before: Services, now: Services, i: nat, next: nat, later: nat)
    requires i < |SERVICE_NAMES| && Recovering(start, before, i, next) && next <= later
    requires var name := SERVICE_NAMES[i];
             && name in start && name in now && now == before[name := now[name]]
             && FailedOver(start[name], now[name], later)
    ensures Recovering(start, now, i + 1, later)
  {
    forall n | n in start
      ensures if n in SERVICE_NAMES[..i + 1] then FailedOver(start[n], now[n], later) else now[n] == Outage(start[n])
    {
      assert n in SERVICE_NAMES[..i + 1] <==> n in SERVICE_NAMES[..i] || n == SERVICE_NAMES[i];
    }
  }

  /** svc.pods[-k:] become ready. */
  function ReadyLast(pods: Pods, k: nat): Pods {
    if pods.Nil? then Nil
    else Cons(if Size(pods) <= k then Pod(pods.head.name, Running, true) else pods.head, ReadyLast(pods.tail, k))
  }

  lemma {:induction false} ReadyLastTwo(pods: Pods, a: Pod, b: Pod)
    ensures ReadyLast(Add(Add(pods, a), b), 2) == Add(Add(pods, Pod(a.name, Running, true)), Pod(b.name, Running, true))
  {
    if pods.Cons? {
      ReadyLastTwo(pods.tail, a, b);
      AddFacts(pods.tail, a);
      AddFacts(Add(pods.tail, a), b);
    } else {
      assert Size(Cons(b, Nil)) == 1 && Size(Cons(a, Cons(b, Nil))) == 2;
      assert ReadyLast(Cons(b, Nil), 2) == Cons(Pod(b.name, Running, true), Nil);
    }
  }

  /** The pod list through a scale-up by two. */
  lemma ScaledUp(pods: Pods, one: nat, two: nat)
    requires UniqueNames(pods) && NamesBelow(pods, one) && AllReady(pods) && two == one + 1
    ensures var after := ReadyLast(Add(Add(pods, Pod(one, Pending, false)), Pod(two, Pending, false)), 2);
            && after == Add(Add(pods, Pod(one, Running, true)), Pod(two, Running, true))
            && Size(after) == Size(pods) + 2 && AllReady(after) && UniqueNames(after) && NamesBelow(after, two + 1)
  {
    ReadyLastTwo(pods, Pod(one, Pending, false), Pod(two, Pending, false));
    AddFacts(pods, Pod(one, Running, true));
    AddFacts(Add(pods, Pod(one, Running, true)), Pod(two, Running, true));
  }

  /** The pod list through a replacement: the first pod down, another appended, started, the first filtered out. */
  lemma Replaced(pods: Pods, newPod: nat, waiting: Phase)
    requires pods.Cons? && UniqueNames(pods) && NamesBelow(pods, newPod) && AllReady(pods)
    ensures var target := pods.head.name;
            var down := Cons(Pod(target, Terminating, false), pods.tail);
            && Mark(pods, target, Terminating, false) == down && NamesBelow(down, newPod)
            && Mark(pods, target, Terminating, true) == Cons(Pod(target, Terminating, true), pods.tail)
            && Mark(Cons(Pod(target, Terminating, true), pods.tail), target, Terminating, false) == down
            && Without(Mark(Add(down, Pod(newPod, waiting, false)), newPod, Running, true), target)
                == Add(pods.tail, Pod(newPod, Running, true))
    ensures var after := Add(pods.tail, Pod(newPod, Running, true));
            Size(after) == Size(pods) && AllReady(after) && UniqueNames(after) && NamesBelow(after, newPod + 1)
  {
    var target, up := pods.head.name, Pod(newPod, Running, true);
    var down := Cons(Pod(target, Terminating, false), pods.tail);
    assert forall n :: n in Names(pods.tail) ==> n in Names(pods);
    assert Names(down) == Names(pods) && target in Names(pods);
    AbsentFacts(pods.tail, target, Terminating, true);
    AbsentFacts(pods.tail, target, Terminating, false);
    MarkAdded(down, Pod(newPod, waiting, false), Running, true);
    AddFacts(pods.tail, up);
    AbsentFacts(Add(pods.tail, up), target, Running, true);
  }
}
