/**
 The waiting room: one sorted set per sale, scored by arrival millisecond. Redis orders
 equal scores by member, so users are ordered by their names, modelled as numbers.
 */
module Queue {
  import opened Sums

  datatype Entry = Entry(score: int, user: nat)

  predicate Before(a: Entry, b: Entry) {
    a.score < b.score || (a.score == b.score && a.user < b.user)
  }

  /** The content of a sorted set in rank order. */
  predicate Ranked(q: seq<Entry>) {
    && (forall i, j :: 0 <= i < j < |q| ==> Before(q[i], q[j]))
    && (forall i, j :: 0 <= i < j < |q| ==> q[i].user != q[j].user)
  }

  predicate Waiting(q: seq<Entry>, user: nat) {
    exists i :: 0 <= i < |q| && q[i].user == user
  }

  /** ZRANK; meaningful while the user waits. */
  function Rank(q: seq<Entry>, user: nat): (rank: nat)
    requires Waiting(q, user)
    ensures rank < |q| && q[rank].user == user
  {
    if q[0].user == user then 0
    else
      var i :| 0 <= i < |q| && q[i].user == user;
      assert q[1..][i - 1].user == user;
      Rank(q[1..], user) + 1
  }

  function Insert(q: seq<Entry>, e: Entry): (out: seq<Entry>)
    requires Ranked(q) && !Waiting(q, e.user)
    ensures Ranked(out) && |out| == |q| + 1
    ensures forall x :: x in out <==> x in q || x == e
  {
    var n := |q| - 1;
    if q == [] || Before(q[n], e) then q + [e]
    else
      assert q == q[..n] + [q[n]];
      assert !Waiting(q[..n], e.user);
      var front := Insert(q[..n], e);
      assert forall x :: x in q[..n] ==> Before(x, q[n]) && x.user != q[n].user;
      assert forall i :: 0 <= i < |front| ==> front[i] in front;
      front + [q[n]]
  }

  /** ZADD NX */
  function Add(q: seq<Entry>, user: nat, now: int): (out: seq<Entry>)
    requires Ranked(q)
    ensures Ranked(out) && Waiting(out, user)
    ensures forall x :: x in out <==> x in q || (!Waiting(q, user) && x == Entry(now, user))
  {
    if Waiting(q, user) then q
    else
      var out := Insert(q, Entry(now, user));
      assert Entry(now, user) in out;
      out
  }

  /** ZREM of each member in `gone`. */
  function Without(q: seq<Entry>, gone: set<nat>): (out: seq<Entry>)
    ensures |out| <= |q|
  {
    if q == [] then []
    else
      var n := |q| - 1;
      if q[n].user in gone then Without(q[..n], gone) else Without(q[..n], gone) + [q[n]]
  }

  lemma {:induction false} WithoutMembers(q: seq<Entry>, gone: set<nat>)
    ensures forall x :: x in Without(q, gone) <==> x in q && x.user !in gone
  {
    if q != [] {
      var n := |q| - 1;
      assert q == q[..n] + [q[n]];
      WithoutMembers(q[..n], gone);
    }
  }

  /** ZPOPMIN: what is left, and what was popped. */
  function Pop(q: seq<Entry>, count: nat): (seq<Entry>, seq<Entry>) {
    if |q| <= count then ([], q) else (q[count..], q[..count])
  }

  function Users(q: seq<Entry>): seq<nat> {
    seq(|q|, i requires 0 <= i < |q| => q[i].user)
  }

  lemma AppendIsRanked(q: seq<Entry>, e: Entry)
    requires Ranked(q) && forall i :: 0 <= i < |q| ==> Before(q[i], e) && q[i].user != e.user
    ensures Ranked(q + [e])
  {
  }

  lemma {:induction false} WithoutIsRanked(q: seq<Entry>, gone: set<nat>)
    requires Ranked(q)
    ensures Ranked(Without(q, gone))
  {
    if q != [] {
      var n := |q| - 1;
      WithoutIsRanked(q[..n], gone);
      WithoutMembers(q[..n], gone);
      var front := Without(q[..n], gone);
      forall i | 0 <= i < |front| ensures Before(front[i], q[n]) && front[i].user != q[n].user {
        assert front[i] in q[..n];
      }
      hide Without;
      AppendIsRanked(front, q[n]);
    }
  }

  lemma {:induction false} WithoutTwice(q: seq<Entry>, a: set<nat>, b: set<nat>)
    ensures Without(Without(q, a), b) == Without(q, a + b)
  {
    if q != [] {
      var n := |q| - 1;
      WithoutTwice(q[..n], a, b);
      if q[n].user !in a {
        assert Without(q, a)[..|Without(q, a)| - 1] == Without(q[..n], a);
      }
    }
  }

  lemma {:induction false} WithoutNone(q: seq<Entry>, gone: set<nat>)
    requires forall x :: x in q ==> x.user !in gone
    ensures Without(q, gone) == q
  {
    if q != [] {
      var n := |q| - 1;
      assert q == q[..n] + [q[n]];
      assert forall x :: x in q[..n] ==> x in q;
      WithoutNone(q[..n], gone);
    }
  }

  function Members(q: seq<Entry>): set<Entry> {
    set e | e in q
  }

  lemma {:induction false} CountMembers(q: seq<Entry>)
    requires Ranked(q)
    ensures |Members(q)| == |q|
  {
    if q == [] {
      assert Members(q) == {};
    } else {
      var n := |q| - 1;
      CountMembers(q[..n]);
      assert q == q[..n] + [q[n]];
      assert Members(q) == Members(q[..n]) + {q[n]};
    }
  }

  /** Everybody before the user's own entry. */
  function AheadOf(q: seq<Entry>, user: nat): set<Entry>
    requires Waiting(q, user)
  {
    set e | e in q && Before(e, q[Rank(q, user)])
  }

  lemma RankCountsThoseAhead(q: seq<Entry>, user: nat)
    requires Ranked(q) && Waiting(q, user)
    ensures |AheadOf(q, user)| == Rank(q, user)
  {
    var r := Rank(q, user);
    assert AheadOf(q, user) == Members(q[..r]) by {
      assert forall i :: 0 <= i < |q| ==> (Before(q[i], q[r]) <==> i < r);
    }
    CountMembers(q[..r]);
  }

  // ---------------------------------------------------------------- the service

  class QueueService {
    var queues: map<nat, seq<Entry>>
    /** admitted:{sale}:{user}, with the second the token expires. */
    var admitted: map<(nat, nat), int>

    constructor ()
      ensures queues == map[] && admitted == map[]
    {
      queues, admitted := map[], map[];
    }

    ghost predicate Valid()
      reads this
    {
      forall sale :: sale in queues ==> Ranked(queues[sale])
    }

    /** A missing key is an empty set. */
    function Of(sale: nat): seq<Entry>
      reads this
    {
      if sale in queues then queues[sale] else []
    }

    lemma Present(sale: nat)
      requires Valid() && sale in queues
      ensures Of(sale) == queues[sale] && Ranked(queues[sale])
    {
    }

    method Enqueue(sale: nat, user: nat, now: int) returns (position: nat)
      requires Valid()
      modifies this`queues
      ensures Valid()
      ensures queues == old(queues)[sale := Add(old(Of(sale)), user, now)]
      ensures forall e :: e in Of(sale) <==>
        e in old(Of(sale)) || (!Waiting(old(Of(sale)), user) && e == Entry(now, user))
      ensures position == Rank(Of(sale), user) + 1
    {
      queues := queues[sale := Add(Of(sale), user, now)];
      position := Rank(queues[sale], user) + 1;
    }

    /** Zero stands for None; a waiting user has exactly `position - 1` others ahead. */
    method GetPosition(sale: nat, user: nat) returns (position: nat)
      requires Valid()
      ensures position == 0 <==> !Waiting(Of(sale), user)
      ensures position > 0 ==> |AheadOf(Of(sale), user)| == position - 1
    {
      if Waiting(Of(sale), user) {
        RankCountsThoseAhead(Of(sale), user);
        return Rank(Of(sale), user) + 1;
      }
      return 0;
    }

    method DequeueBatch(sale: nat, batchSize: nat) returns (users: seq<nat>)
      requires Valid()
      modifies this`queues
      ensures Valid()
      ensures |users| == if batchSize < |old(Of(sale))| then batchSize else |old(Of(sale))|
      ensures users + Users(Of(sale)) == Users(old(Of(sale)))
      ensures queues == old(queues)[sale := old(Of(sale))[|users|..]]
    {
      var (left, popped) := Pop(Of(sale), batchSize);
      assert left == Of(sale)[|popped|..];
      queues := queues[sale := left];
      users := Users(popped);
    }

    method RemoveFromQueue(sale: nat, user: nat)
      requires Valid()
      modifies this`queues
      ensures Valid()
      ensures queues == old(queues)[sale := Without(old(Of(sale)), {user})]
      ensures forall e :: e in Of(sale) <==> e in old(Of(sale)) && e.user != user
    {
      WithoutIsRanked(Of(sale), {user});
      WithoutMembers(Of(sale), {user});
      queues := queues[sale := Without(Of(sale), {user})];
    }

    method AdmitUser(sale: nat, user: nat, now: int)
      requires Valid()
      modifies this
      ensures Valid()
      ensures queues == old(queues)[sale := Without(old(Of(sale)), {user})]
      ensures forall e :: e in Of(sale) <==> e in old(Of(sale)) && e.user != user
      ensures admitted == old(admitted)[(sale, user) := now + 30]
    {
      admitted := admitted[(sale, user) := now + 30];
      RemoveFromQueue(sale, user);
    }
  }

  // ---------------------------------------------------------------- the ghost sweep

  predicate Alive(heartbeats: map<(nat, nat), int>, sale: nat, user: nat, now: int) {
    (sale, user) in heartbeats && now < heartbeats[(sale, user)]
  }

  function Ghosts(q: seq<Entry>, heartbeats: map<(nat, nat), int>, sale: nat, now: int): set<nat> {
    set x | x in q && !Alive(heartbeats, sale, x.user, now) :: x.user
  }

  lemma NothingSweptYet(queues: map<nat, seq<Entry>>, heartbeats: map<(nat, nat), int>, sale: nat, now: int)
    requires sale in queues
    ensures queues == queues[sale := Without(queues[sale], Ghosts(queues[sale][..0], heartbeats, sale, now))]
  {
    WithoutNone(queues[sale], {});
    assert Ghosts(queues[sale][..0], heartbeats, sale, now) == {};
  }

  /** The inner loop over the members of one queue: each without a heartbeat is removed. */
  method SweepQueue(service: QueueService, heartbeats: map<(nat, nat), int>, sale: nat, now: int) returns (removed: nat)
    requires service.Valid() && sale in service.queues
    modifies service`queues
    ensures service.Valid()
    ensures var q := old(service.queues)[sale]; var left := Without(q, Ghosts(q, heartbeats, sale, now));
      service.queues == old(service.queues)[sale := left] && removed == |q| - |left|
    ensures forall e :: e in service.queues[sale] <==>
      e in old(service.queues)[sale] && (sale, e.user) in heartbeats && now < heartbeats[(sale, e.user)]
  {
    hide *;
    ghost var before := service.queues;
    var q := service.queues[sale];
    removed := 0;
    service.Present(sale);
    NothingSweptYet(before, heartbeats, sale, now);
    for i := 0 to |q|
      invariant service.Valid()
      invariant service.queues == before[sale := Without(q, Ghosts(q[..i], heartbeats, sale, now))]
      invariant removed == |q| - |service.queues[sale]|
    {
      SweepStep(q, i, heartbeats, sale, now);
      if !Alive(heartbeats, sale, q[i].user, now) {
        service.Present(sale);
        service.RemoveFromQueue(sale, q[i].user);
        removed := removed + 1;
      }
    }
    assert q[..|q|] == q;
    TheAliveStay(q, heartbeats, sale, now);
  }

  /** Who stays is who still has a heartbeat. */
  lemma TheAliveStay(q: seq<Entry>, heartbeats: map<(nat, nat), int>, sale: nat, now: int)
    ensures forall e :: e in Without(q, Ghosts(q, heartbeats, sale, now)) <==>
      e in q && (sale, e.user) in heartbeats && now < heartbeats[(sale, e.user)]
  {
    WithoutMembers(q, Ghosts(q, heartbeats, sale, now));
  }

  function Sizes(queues: map<nat, seq<Entry>>): map<nat, int> {
    map sale | sale in queues :: |queues[sale]|
  }

  /** All the users waiting in all the queues. */
  ghost function Total(queues: map<nat, seq<Entry>>): int {
    SumMap(Sizes(queues))
  }

  lemma TotalWithOneReplaced(queues: map<nat, seq<Entry>>, sale: nat, left: seq<Entry>)
    requires sale in queues
    ensures Total(queues[sale := left]) == Total(queues) - |queues[sale]| + |left|
  {
    assert Sizes(queues[sale := left]) == Sizes(queues)[sale := |left|];
    SumMapPut(Sizes(queues), sale, |left|);
  }

  /** The queues once all but those of `todo` have been swept. */
  function Swept(queues: map<nat, seq<Entry>>, todo: set<nat>, heartbeats: map<(nat, nat), int>, now: int)
    : map<nat, seq<Entry>>
  {
    map sale | sale in queues ::
      if sale in todo then queues[sale] else Without(queues[sale], Ghosts(queues[sale], heartbeats, sale, now))
  }

  lemma SweptOneMore(queues: map<nat, seq<Entry>>, todo: set<nat>, heartbeats: map<(nat, nat), int>,
                     now: int, sale: nat)
    requires sale in queues && sale in todo
    ensures var swept := Swept(queues, todo, heartbeats, now);
      var left := Without(queues[sale], Ghosts(queues[sale], heartbeats, sale, now));
      && sale in swept && swept[sale] == queues[sale]
      && Swept(queues, todo - {sale}, heartbeats, now) == swept[sale := left]
      && Total(swept[sale := left]) == Total(swept) - |queues[sale]| + |left|
  {
    hide Without, Ghosts, Total;
    TotalWithOneReplaced(Swept(queues, todo, heartbeats, now), sale,
                         Without(queues[sale], Ghosts(queues[sale], heartbeats, sale, now)));
  }

  /** remove_ghost_users: every queue is swept, and the ghosts of all of them are counted. */
  method RemoveGhostUsers(service: QueueService, heartbeats: map<(nat, nat), int>, now: int) returns (removed: nat)
    requires service.Valid()
    modifies service`queues
    ensures service.Valid()
    ensures service.queues == Swept(old(service.queues), {}, heartbeats, now)
    ensures removed == Total(old(service.queues)) - Total(service.queues)
    ensures service.queues.Keys == old(service.queues).Keys
    ensures forall sale, e :: sale in service.queues ==>
      (e in service.queues[sale] <==>
        e in old(service.queues)[sale] && (sale, e.user) in heartbeats && now < heartbeats[(sale, e.user)])
  {
    ghost var before := service.queues;
    var todo := service.queues.Keys;
    removed := 0;
    assert Swept(before, todo, heartbeats, now) == before;
    hide *;
    while todo != {}
      invariant todo <= before.Keys
      invariant service.Valid()
      invariant service.queues == Swept(before, todo, heartbeats, now)
      invariant removed == Total(before) - Total(service.queues)
      decreases todo
    {
      var sale :| sale in todo;
      SweptOneMore(before, todo, heartbeats, now, sale);
      var count := SweepQueue(service, heartbeats, sale, now);
      removed := removed + count;
      todo := todo - {sale};
    }
    TheAliveStayEverywhere(before, heartbeats, now);
  }

  lemma TheAliveStayEverywhere(queues: map<nat, seq<Entry>>, heartbeats: map<(nat, nat), int>, now: int)
    ensures var swept := Swept(queues, {}, heartbeats, now);
      && swept.Keys == queues.Keys
      && forall sale, e :: sale in swept ==>
           (e in swept[sale] <==>
             e in queues[sale] && (sale, e.user) in heartbeats && now < heartbeats[(sale, e.user)])
  {
    forall sale | sale in queues
      ensures forall e :: e in Without(queues[sale], Ghosts(queues[sale], heartbeats, sale, now)) <==>
        e in queues[sale] && (sale, e.user) in heartbeats && now < heartbeats[(sale, e.user)]
    {
      TheAliveStay(queues[sale], heartbeats, sale, now);
    }
    hide Without, Ghosts;
  }

  lemma SweepStep(members: seq<Entry>, i: nat, heartbeats: map<(nat, nat), int>, sale: nat, now: int)
    requires Ranked(members) && i < |members|
    ensures var left := Without(members, Ghosts(members[..i], heartbeats, sale, now));
      var next := Without(members, Ghosts(members[..i + 1], heartbeats, sale, now));
      if Alive(heartbeats, sale, members[i].user, now) then next == left
      else next == Without(left, {members[i].user}) && |next| == |left| - 1
  {
    var member := members[i].user;
    var gone := Ghosts(members[..i], heartbeats, sale, now);
    assert members[..i + 1] == members[..i] + [members[i]];
    assert Ghosts(members[..i + 1], heartbeats, sale, now)
      == if Alive(heartbeats, sale, member, now) then gone else gone + {member};
    if !Alive(heartbeats, sale, member, now) {
      WithoutTwice(members, gone, {member});
      RemovingOne(members, gone, i);
    }
  }

  lemma {:induction false} WithoutCounts(q: seq<Entry>, gone: set<nat>, user: nat)
    requires Ranked(q) && user !in gone
    ensures |Without(q, gone + {user})| == |Without(q, gone)| - if Waiting(q, user) then 1 else 0
  {
    if q != [] {
      var n := |q| - 1;
      WithoutCounts(q[..n], gone, user);
      assert Waiting(q, user) <==> Waiting(q[..n], user) || q[n].user == user;
    }
  }

  lemma RemovingOne(members: seq<Entry>, gone: set<nat>, i: nat)
    requires Ranked(members) && i < |members| && forall u :: u in gone ==> Waiting(members[..i], u)
    ensures |Without(members, gone + {members[i].user})| == |Without(members, gone)| - 1
  {
    assert !Waiting(members[..i], members[i].user);
    WithoutCounts(members, gone, members[i].user);
  }

  // ---------------------------------------------------------------- positions

  lemma {:induction false} RankIsTheIndex(q: seq<Entry>, i: nat)
    requires Ranked(q) && i < |q|
    ensures Waiting(q, q[i].user) && Rank(q, q[i].user) == i
  {
    assert q[Rank(q, q[i].user)].user == q[i].user;
  }

  lemma LastOfTheRest<T>(q: seq<T>, at: nat)
    requires at < |q|
    ensures var n, rest := |q| - 1, q[at..];
      && q[..n][..at] == q[..at] && rest[|rest| - 1] == q[n]
      && q[..n][at..] == rest[..|rest| - 1]
  {
  }

  lemma {:induction false} WithoutSplits(q: seq<Entry>, gone: set<nat>, at: nat)
    requires at <= |q|
    ensures Without(q, gone) == Without(q[..at], gone) + Without(q[at..], gone)
  {
    if at == |q| {
      assert q[..at] == q && q[at..] == [];
    } else {
      WithoutSplits(q[..|q| - 1], gone, at);
      LastOfTheRest(q, at);
    }
  }

  /** A sweep moves each survivor up by exactly the ghosts that were ahead of it. */
  lemma SweepMovesUpByGhostsAhead(q: seq<Entry>, gone: set<nat>, user: nat)
    requires Ranked(q) && Waiting(q, user) && user !in gone
    ensures Waiting(Without(q, gone), user)
    ensures var ahead := q[..Rank(q, user)];
      Rank(Without(q, gone), user) == Rank(q, user) - (|ahead| - |Without(ahead, gone)|)
  {
    var r := Rank(q, user);
    var after := Without(q, gone);
    WithoutSplits(q, gone, r);
    WithoutSplits(q[r..], gone, 1);
    assert q[r..][..1] == [q[r]];
    assert Without([q[r]], gone) == [q[r]];
    assert after[|Without(q[..r], gone)|] == q[r];
    WithoutIsRanked(q, gone);
    RankIsTheIndex(after, |Without(q[..r], gone)|);
  }

  /** Popping in batches of any sizes yields the same users in the same order. */
  lemma PopsCompose(q: seq<Entry>, a: nat, b: nat)
    ensures var (rest, first) := Pop(q, a); var (left, second) := Pop(rest, b);
      Pop(q, a + b) == (left, first + second)
  {
    if |q| <= a {
      assert q + [] == q;
    } else {
      assert q[..a] + q[a..] == q;
      assert |q| > a + b ==> q[..a] + q[a..][..b] == q[..a + b];
    }
  }

  /** Adding a user who already waits changes nothing. */
  lemma ReenqueueChangesNothing(q: seq<Entry>, user: nat, now: int)
    requires Ranked(q) && Waiting(q, user)
    ensures Add(q, user, now) == q
  {
  }

  lemma {:induction false} InsertBehind(q: seq<Entry>, e: Entry, i: nat)
    requires Ranked(q) && !Waiting(q, e.user) && i < |q| && Before(q[i], e)
    ensures Insert(q, e)[i] == q[i]
  {
    var n := |q| - 1;
    if !Before(q[n], e) {
      assert !Waiting(q[..n], e.user);
      InsertBehind(q[..n], e, i);
    }
  }

  /** A later millisecond's arrival never moves anyone already waiting. */
  lemma LaterArrivalsQueueBehind(q: seq<Entry>, user: nat, now: int, waiting: nat)
    requires Ranked(q) && Waiting(q, waiting) && q[Rank(q, waiting)].score < now
    ensures Waiting(Add(q, user, now), waiting)
    ensures Rank(Add(q, user, now), waiting) == Rank(q, waiting)
  {
    if !Waiting(q, user) {
      InsertBehind(q, Entry(now, user), Rank(q, waiting));
    }
    RankIsTheIndex(Add(q, user, now), Rank(q, waiting));
  }

  // ---------------------------------------------------------------- order over all runs

  datatype Op = Join(user: nat, now: int) | Leave(user: nat) | Serve(count: nat) | Sweep(ghosts: set<nat>)

  /** A queue with the arrival time of everyone who has ever joined. */
  datatype Line = Line(queue: seq<Entry>, arrivals: map<nat, int>)

  function Apply(l: Line, op: Op): (after: Line)
    requires Ranked(l.queue)
    ensures Ranked(after.queue)
  {
    match op
    case Join(user, now) =>
      Line(Add(l.queue, user, now), if Waiting(l.queue, user) then l.arrivals else l.arrivals[user := now])
    case Leave(user) =>
      WithoutIsRanked(l.queue, {user});
      l.(queue := Without(l.queue, {user}))
    case Serve(count) => l.(queue := Pop(l.queue, count).0)
    case Sweep(ghosts) =>
      WithoutIsRanked(l.queue, ghosts);
      l.(queue := Without(l.queue, ghosts))
  }

  function ApplyAll(ops: seq<Op>): (l: Line)
    ensures Ranked(l.queue)
  {
    if ops == [] then Line([], map[]) else Apply(ApplyAll(ops[..|ops| - 1]), ops[|ops| - 1])
  }

  /** Who waits after one operation, and since when. */
  lemma WhoWaitsAfter(l: Line, op: Op)
    requires Ranked(l.queue)
    ensures var after := Apply(l, op);
      && (forall e :: e in after.queue <==>
            match op
            case Join(user, now) => e in l.queue || (!Waiting(l.queue, user) && e == Entry(now, user))
            case Leave(user) => e in l.queue && e.user != user
            case Serve(count) => exists i :: count <= i < |l.queue| && l.queue[i] == e
            case Sweep(ghosts) => e in l.queue && e.user !in ghosts)
      && after.arrivals ==
           if op.Join? && !Waiting(l.queue, op.user) then l.arrivals[op.user := op.now] else l.arrivals
  {
    match op
    case Join(_, _) =>
    case Leave(user) => WithoutMembers(l.queue, {user});
    case Sweep(ghosts) => WithoutMembers(l.queue, ghosts);
    case Serve(count) =>
      if count < |l.queue| {
        assert forall i :: count <= i < |l.queue| ==> l.queue[i] == l.queue[count..][i - count];
      }
  }

  ghost predicate ScoredByArrival(l: Line) {
    forall e :: e in l.queue ==> e.user in l.arrivals && e.score == l.arrivals[e.user]
  }

  lemma {:induction false} ScoresAreArrivals(ops: seq<Op>)
    ensures ScoredByArrival(ApplyAll(ops))
  {
    if ops != [] {
      var before, op := ApplyAll(ops[..|ops| - 1]), ops[|ops| - 1];
      ScoresAreArrivals(ops[..|ops| - 1]);
      match op
      case Join(user, now) =>
        assert forall e :: e in before.queue && !Waiting(before.queue, user) ==> e.user != user;
      case Leave(user) => WithoutMembers(before.queue, {user});
      case Serve(_) =>
      case Sweep(ghosts) => WithoutMembers(before.queue, ghosts);
    }
  }

  /** After any mix of joins, departures, pops and sweeps, whoever arrived in an earlier millisecond is ahead. */
  lemma EarlierArrivalIsAhead(ops: seq<Op>, a: nat, b: nat)
    requires var l := ApplyAll(ops);
      Waiting(l.queue, a) && Waiting(l.queue, b) && a in l.arrivals && b in l.arrivals && l.arrivals[a] < l.arrivals[b]
    ensures Rank(ApplyAll(ops).queue, a) < Rank(ApplyAll(ops).queue, b)
  {
    var q := ApplyAll(ops).queue;
    ScoresAreArrivals(ops);
    var i, j := Rank(q, a), Rank(q, b);
    assert q[i] in q && q[j] in q;
  }

  lemma LeftBehind(q: seq<Entry>, count: nat)
    ensures var after := Pop(q, count).0;
      |after| == (if count < |q| then |q| - count else 0) && after == q[|q| - |after|..]
  {
  }

  lemma StillWaiting(q: seq<Entry>, i: nat, at: nat)
    requires i < |q| && at <= |q|
    ensures at <= i ==> Waiting(q[at..], q[i].user)
  {
    if at <= i {
      assert q[at..][i - at] == q[i];
    }
  }

  /** Those cut off the front of a queue rank before those who stay. */
  lemma FirstAreAhead(q: seq<Entry>, at: nat, u: nat, w: nat)
    requires Ranked(q) && at <= |q| && Waiting(q, u) && !Waiting(q[at..], u) && Waiting(q[at..], w)
    ensures Waiting(q, w) && q[Rank(q, u)].score <= q[Rank(q, w)].score
  {
    var i, j := Rank(q, u), Rank(q[at..], w);
    assert q[at + j].user == w;
    RankIsTheIndex(q, at + j);
    StillWaiting(q, i, at);
    assert Before(q[i], q[at + j]);
  }

  /**
   After any mix of operations, a batch serves as many as it asks for or all there are, and nobody is served
   while someone who arrived in an earlier millisecond goes on waiting.
   */
  lemma EarlierArrivalIsServedFirst(ops: seq<Op>, count: nat)
    ensures var l := ApplyAll(ops); var after := Apply(l, Serve(count)).queue;
      && |after| == (if count < |l.queue| then |l.queue| - count else 0)
      && forall u, w :: Waiting(l.queue, u) && !Waiting(after, u) && Waiting(after, w) ==>
           u in l.arrivals && w in l.arrivals && l.arrivals[u] <= l.arrivals[w]
  {
    ScoresAreArrivals(ops);
    hide ApplyAll, Ranked, Waiting, Pop;
    var l := ApplyAll(ops);
    var q, after := l.queue, Apply(l, Serve(count)).queue;
    var served := |q| - |after|;
    LeftBehind(q, count);
    hide Apply;
    forall u, w | Waiting(q, u) && !Waiting(after, u) && Waiting(after, w)
      ensures u in l.arrivals && w in l.arrivals && l.arrivals[u] <= l.arrivals[w]
    {
      FirstAreAhead(q, served, u, w);
      assert q[Rank(q, u)] in q && q[Rank(q, w)] in q;
    }
  }
}
