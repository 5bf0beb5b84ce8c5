/**
 The client loop of handle_uevents as a state machine. The loop keeps the next client
 in a local variable, the list keeps one shared iterator, and serving a client can
 drop it from the list or restart the iterator at the head.
 */
module ClientWalk {
  import opened Clients

  // what serving a client does to the list and the iterator
  datatype Act = Keep | Drop | Restart

  /** dangling: the client to visit next is the one just dropped, whose node is freed. */
  datatype Walk = Walk(list: seq<Client>, citer: Client?, iter: Client?, dangling: bool)

  predicate Alive(w: Walk) { w.citer != null && !w.dangling }

  function Start(l: seq<Client>): Walk { Walk(l, At(l, 0), At(l, 0), false) }

  /** One visit: the iterator moves on, the client is served, and the loop goes on from where the iterator was. */
  function Step(w: Walk, act: Act): Walk
    requires Alive(w)
  {
    var c: Client := w.citer;
    var next := Following(w.list, w.iter);
    Walk(if act.Drop? then Without(w.list, c) else w.list, next,
         if act.Restart? then At(w.list, 0) else next, act.Drop? && next == c)
  }

  function After(w: Walk, acts: seq<Act>): Walk {
    if acts == [] then w
    else
      var v := After(w, acts[..|acts| - 1]);
      if Alive(v) then Step(v, acts[|acts| - 1]) else v
  }

  /** The clients visited, in order. */
  function Visited(w: Walk, acts: seq<Act>): seq<Client> {
    if acts == [] then []
    else
      var v := After(w, acts[..|acts| - 1]);
      Visited(w, acts[..|acts| - 1]) + if Alive(v) then [v.citer] else []
  }

  // as long as the walk is alive, what it points to is in the list
  ghost predicate Inside(w: Walk) {
    !w.dangling ==> (w.citer != null ==> w.citer in w.list) && (w.iter != null ==> w.iter in w.list)
  }

  lemma FollowingInside(l: seq<Client>, x: Client?)
    ensures Following(l, x) != null ==> Following(l, x) in l
  {
    if l != [] && x != null && l[0] != x {
      FollowingInside(l[1..], x);
    }
  }

  lemma WithoutKeeps(l: seq<Client>, x: Client, y: Client)
    requires y in l && y != x
    ensures y in Without(l, x)
  {
    if l[0] != y { WithoutKeeps(l[1..], x, y); }
  }

  lemma StepInside(w: Walk, act: Act)
    requires Alive(w) && Inside(w)
    ensures Inside(Step(w, act)) && forall x :: x in Step(w, act).list ==> x in w.list
  {
    hide Following, Without;
    var c: Client := w.citer;
    WithoutLess(w.list, c);
    var next := Following(w.list, w.iter);
    FollowingInside(w.list, w.iter);
    if act.Drop? && next != null && next != w.citer {
      WithoutKeeps(w.list, c, next);
    }
  }

  // a restart while the client at place n is served
  predicate RestartAt(acts: seq<Act>, n: int) { 0 <= n < |acts| && acts[n].Restart? }

  /** No restart while a client is served that is not the last of the list. */
  ghost predicate NoRestart(acts: seq<Act>, l: seq<Client>) { forall t :: 0 <= t < |l| - 1 ==> !RestartAt(acts, t) }

  // the first n clients without the dropped ones
  function Left(l: seq<Client>, acts: seq<Act>, n: nat): seq<Client>
    requires n <= |l| && n <= |acts|
  {
    if n == 0 then [] else Left(l, acts, n - 1) + if acts[n - 1].Drop? then [] else [l[n - 1]]
  }

  lemma LeftIn(l: seq<Client>, acts: seq<Act>, n: nat)
    requires n <= |l| && n <= |acts|
    ensures forall x :: x in Left(l, acts, n) ==> x in l[..n]
  {
    if n > 0 {
      LeftIn(l, acts, n - 1);
      assert forall x :: x in l[..n - 1] ==> x in l[..n];
      assert l[n - 1] in l[..n];
    }
  }

  // nothing left: everything so far was dropped
  lemma LeftNone(l: seq<Client>, acts: seq<Act>, n: nat)
    requires n <= |l| && n <= |acts|
    ensures Left(l, acts, n) == [] <==> forall i :: 0 <= i < n ==> acts[i].Drop?
  {
    if n > 0 { LeftNone(l, acts, n - 1); }
  }

  lemma {:induction false} LeftDistinct(l: seq<Client>, acts: seq<Act>, n: nat)
    requires DistinctClients(l) && n <= |l| && n <= |acts|
    ensures DistinctClients(Left(l, acts, n) + l[n..])
    ensures forall i :: n <= i < |l| ==> l[i] !in Left(l, acts, n)
  {
    if n == 0 {
      assert l[0..] == l && Left(l, acts, 0) + l[0..] == l;
    } else {
      LeftDistinct(l, acts, n - 1);
      var was := Left(l, acts, n - 1);
      assert l[n - 1..] == [l[n - 1]] + l[n..];
      if acts[n - 1].Drop? {
        assert was + l[n - 1..] == was + ([l[n - 1]] + l[n..]);
        DistinctParts(was, [l[n - 1]], l[n..]);
        assert Left(l, acts, n) == was;
      } else {
        assert was + l[n - 1..] == was + [l[n - 1]] + l[n..];
      }
    }
  }

  lemma DistinctParts(a: seq<Client>, b: seq<Client>, z: seq<Client>)
    requires DistinctClients(a + (b + z))
    ensures DistinctClients(a + z)
  {
    var s, t := a + (b + z), a + z;
    forall i | 0 <= i < |t| ensures t[i] == s[if i < |a| then i else i + |b|] {
    }
  }

  // ---- without a restart ------------------------------------------------------------------

  // the list when the client at place t is served
  function ListAt(l: seq<Client>, acts: seq<Act>, t: nat): (list: seq<Client>)
    requires t < |l| && t < |acts|
    ensures |list| >= |l| - t
  {
    Left(l, acts, t) + l[t..]
  }

  // the client at place n in the list the walk has left so far
  lemma PlaceOf(l: seq<Client>, left: seq<Client>, n: nat)
    requires n < |l| && DistinctClients(left + l[n..])
    ensures var list := left + l[n..];
            && Following(list, l[n]) == At(l, n + 1) && l[n] in list
            && Without(list, l[n]) == left + l[n + 1..] && left + [l[n]] + l[n + 1..] == list
  {
    hide Following, Without;
    var list, k := left + l[n..], |left|;
    assert list[k] == l[n] && list[..k] == left && list[k + 1..] == l[n + 1..];
    FollowingAt(list, k);
    assert At(list, k + 1) == At(l, n + 1);
    NotAgain(list, k);
    WithoutAt(list, k);
  }

  // one visit at place n of the list
  lemma StepAt(l: seq<Client>, acts: seq<Act>, n: nat)
    requires DistinctClients(l) && n < |l| && n < |acts|
    ensures var w := Step(Walk(Left(l, acts, n) + l[n..], l[n], l[n], false), acts[n]);
            && w.list == Left(l, acts, n + 1) + l[n + 1..]
            && w.citer == At(l, n + 1) && !w.dangling
            && w.iter == if acts[n].Restart? then At(ListAt(l, acts, n), 0) else At(l, n + 1)
  {
    hide Following, Without, DistinctClients;
    LeftDistinct(l, acts, n);
    PlaceOf(l, Left(l, acts, n), n);
    OtherNext(l, n);
  }

  lemma NotAgain(l: seq<Client>, k: nat)
    requires DistinctClients(l) && k < |l|
    ensures l[k] !in l[..k] && l[k] !in l[k + 1..]
  {
  }

  lemma OtherNext(l: seq<Client>, n: nat)
    requires DistinctClients(l) && n < |l|
    ensures At(l, n + 1) != l[n]
  {
  }

  lemma {:induction false} Straight(l: seq<Client>, acts: seq<Act>, n: nat)
    requires DistinctClients(l) && n <= |l| && n <= |acts|
    requires forall t :: 0 <= t < n && t < |l| - 1 ==> !RestartAt(acts, t)
    ensures var w := After(Start(l), acts[..n]);
            && w.list == Left(l, acts, n) + l[n..] && w.citer == At(l, n) && !w.dangling
            && (n < |l| ==> w.iter == l[n])
    ensures Visited(Start(l), acts[..n]) == l[..n]
  {
    hide Step, DistinctClients, Left;
    if n == 0 {
      NothingLeft(l, acts);
    } else {
      Straight(l, acts, n - 1);
      assert acts[..n][..n - 1] == acts[..n - 1];
      StepAt(l, acts, n - 1);
      assert l[..n] == l[..n - 1] + [l[n - 1]];
      assert n < |l| ==> !RestartAt(acts, n - 1);
    }
  }

  lemma NothingLeft(l: seq<Client>, acts: seq<Act>)
    ensures Left(l, acts, 0) + l[0..] == l
    ensures After(Start(l), acts[..0]) == Start(l) && Visited(Start(l), acts[..0]) == []
  {
  }

  // a walk that is over stays over
  lemma {:induction false} Over(w: Walk, acts: seq<Act>, n: nat)
    requires n <= |acts| && !Alive(After(w, acts[..n]))
    ensures After(w, acts) == After(w, acts[..n]) && Visited(w, acts) == Visited(w, acts[..n])
    decreases |acts|
  {
    hide Step;
    if n < |acts| {
      var init := acts[..|acts| - 1];
      assert init[..n] == acts[..n];
      Over(w, init, n);
    } else {
      assert acts[..n] == acts;
    }
  }

  /**
   Without a restart before the last client the walk visits the list in order, each client once,
   and never a freed one.
   */
  lemma InOrder(l: seq<Client>, acts: seq<Act>)
    requires DistinctClients(l) && NoRestart(acts, l)
    ensures var n := if |acts| < |l| then |acts| else |l|;
            && Visited(Start(l), acts) == l[..n] && !After(Start(l), acts).dangling
            && After(Start(l), acts).list == Left(l, acts, n) + l[n..]
            && After(Start(l), acts).citer == At(l, n)
  {
    hide After, Visited, DistinctClients, Left;
    var n := if |acts| < |l| then |acts| else |l|;
    Straight(l, acts, n);
    if n == |l| {
      Over(Start(l), acts, n);
    } else {
      assert acts[..n] == acts;
    }
  }

  // ---- with a restart ------------------------------------------------------------------------

  /** The first restart comes while the client at place t is served, and others follow it in the list. */
  ghost predicate FirstRestart(l: seq<Client>, acts: seq<Act>, t: nat) {
    t < |l| - 1 && RestartAt(acts, t) && forall i :: 0 <= i < t ==> !RestartAt(acts, i)
  }

  lemma KeptOne(l: seq<Client>, acts: seq<Act>, t: nat)
    requires t < |l| && t < |acts| && !acts[t].Drop?
    ensures Left(l, acts, t + 1) + l[t + 1..] == ListAt(l, acts, t)
  {
    hide Left;
    KeptNext(l, acts, t);
    assert l[t..] == [l[t]] + l[t + 1..];
    var left := Left(l, acts, t);
    assert left + ([l[t]] + l[t + 1..]) == left + [l[t]] + l[t + 1..];
  }

  lemma KeptNext(l: seq<Client>, acts: seq<Act>, t: nat)
    requires t < |l| && t < |acts| && !acts[t].Drop?
    ensures Left(l, acts, t + 1) == Left(l, acts, t) + [l[t]]
  {
  }

  // the list while the client at place t is served, with others behind it
  lemma ListParts(l: seq<Client>, acts: seq<Act>, t: nat)
    requires DistinctClients(l) && t < |l| - 1 && t < |acts|
    ensures var list := ListAt(l, acts, t); |list| >= 2 && DistinctClients(list) && l[t + 1] in list
  {
    hide Left, DistinctClients;
    LeftDistinct(l, acts, t);
    assert ListAt(l, acts, t)[|Left(l, acts, t)| + 1] == l[t + 1];
  }

  // one more turn of a walk that has come straight to place t
  lemma NextTurn(l: seq<Client>, acts: seq<Act>, t: nat)
    requires t < |l| && t < |acts|
    requires var w := After(Start(l), acts[..t]);
             w.citer == l[t] && !w.dangling && Visited(Start(l), acts[..t]) == l[..t]
    ensures After(Start(l), acts[..t + 1]) == Step(After(Start(l), acts[..t]), acts[t])
    ensures Visited(Start(l), acts[..t + 1]) == l[..t + 1]
  {
    hide Step;
    assert acts[..t + 1][..t] == acts[..t] && l[..t + 1] == l[..t] + [l[t]];
  }

  // the visit after the restart goes to the next client, the iterator to the second of the list
  lemma AfterRestart(l: seq<Client>, acts: seq<Act>, t: nat)
    requires DistinctClients(l) && FirstRestart(l, acts, t)
    ensures var list := ListAt(l, acts, t);
            var w := After(Start(l), acts[..t + 1]);
            && w == Walk(list, l[t + 1], list[0], false) && Visited(Start(l), acts[..t + 1]) == l[..t + 1]
            && |list| >= 2 && DistinctClients(list) && l[t + 1] in list
  {
    hide Step, DistinctClients, Left, After, Visited, ListAt;
    Straight(l, acts, t);
    NextTurn(l, acts, t);
    StepAt(l, acts, t);
    KeptOne(l, acts, t);
    ListParts(l, acts, t);
    assert After(Start(l), acts[..t]) == Walk(Left(l, acts, t) + l[t..], l[t], l[t], false);
  }

  lemma {:induction false} VisitedPrefix(w: Walk, acts: seq<Act>, n: nat)
    requires n <= |acts|
    ensures Visited(w, acts[..n]) <= Visited(w, acts)
    decreases |acts|
  {
    hide Step, After;
    if n < |acts| {
      var init := acts[..|acts| - 1];
      assert init[..n] == acts[..n];
      VisitedPrefix(w, init, n);
    } else {
      assert acts[..n] == acts;
    }
  }

  // the second client of the list at the restart: one visited already, or the very next one
  lemma SecondClient(l: seq<Client>, acts: seq<Act>, t: nat)
    requires DistinctClients(l) && FirstRestart(l, acts, t)
    ensures var list := ListAt(l, acts, t);
            && |list| >= 2 && list[1] in l[..t + 2]
            && (list[1] == l[t + 1] <==> forall i :: 0 <= i < t ==> acts[i].Drop?)
  {
    var left, list := Left(l, acts, t), ListAt(l, acts, t);
    LeftIn(l, acts, t);
    LeftNone(l, acts, t);
    LeftDistinct(l, acts, t);
    assert list[|left|] == l[t] && list[|left| + 1] == l[t + 1];
    assert forall x :: x in l[..t] ==> x in l[..t + 2];
    assert l[t] == l[..t + 2][t] && l[t + 1] == l[..t + 2][t + 1];
    if |left| > 1 { assert list[1] == left[1] && left[1] in left; }
  }

  // the turn after the one that follows the restart
  lemma TurnBack(l: seq<Client>, acts: seq<Act>, t: nat)
    requires DistinctClients(l) && FirstRestart(l, acts, t) && |acts| >= t + 2
    ensures var w := After(Start(l), acts[..t + 2]);
            && w.citer == ListAt(l, acts, t)[1] && |ListAt(l, acts, t)| >= 2
            && Visited(Start(l), acts[..t + 2]) == l[..t + 2]
            && (w.dangling <==> acts[t + 1].Drop? && forall i :: 0 <= i < t ==> acts[i].Drop?)
  {
    hide DistinctClients, Left, Without, Following, Visited;
    var list := ListAt(l, acts, t);
    AfterRestart(l, acts, t);
    SecondClient(l, acts, t);
    FollowingAt(list, 0);
    assert acts[..t + 2][..t + 1] == acts[..t + 1] && l[..t + 2] == l[..t + 1] + [l[t + 1]];
    OneMore(l, acts, t + 1);
  }

  lemma OneMore(l: seq<Client>, acts: seq<Act>, n: nat)
    requires n < |acts|
    ensures var v := After(Start(l), acts[..n]);
            Visited(Start(l), acts[..n + 1]) == Visited(Start(l), acts[..n]) + if Alive(v) then [v.citer] else []
  {
    hide After;
    assert acts[..n + 1][..n] == acts[..n];
  }

  /**
   What a restart does that comes before the last client: the walk turns to a freed client, or to
   one visited already.
   */
  lemma TurnsBack(l: seq<Client>, acts: seq<Act>, t: nat)
    requires DistinctClients(l) && FirstRestart(l, acts, t) && |acts| >= t + 3
    ensures var second := ListAt(l, acts, t)[1];
            var v := Visited(Start(l), acts);
            if acts[t + 1].Drop? && forall i :: 0 <= i < t ==> acts[i].Drop? then
              After(Start(l), acts).dangling && v == l[..t + 2]
            else |v| > t + 2 && v[..t + 2] == l[..t + 2] && v[t + 2] == second && second in l[..t + 2]
  {
    hide DistinctClients, Left, Step, After, Visited, ListAt;
    TurnBack(l, acts, t);
    SecondClient(l, acts, t);
    if acts[t + 1].Drop? && forall i :: 0 <= i < t ==> acts[i].Drop? {
      Over(Start(l), acts, t + 2);
    } else {
      OneMore(l, acts, t + 2);
      VisitedPrefix(Start(l), acts, t + 3);
      assert Visited(Start(l), acts[..t + 3])[..t + 2] == l[..t + 2];
    }
  }

  // the walk came to the end of the list
  predicate Finished(w: Walk) { w.citer == null && !w.dangling }

  // a walk that finished in spite of a restart made at least two more visits
  lemma FinishedLater(l: seq<Client>, acts: seq<Act>, t: nat)
    requires DistinctClients(l) && FirstRestart(l, acts, t) && Finished(After(Start(l), acts))
    ensures |acts| >= t + 3
  {
    hide DistinctClients, Left, Step, After, Visited, ListAt;
    if |acts| == t + 1 {
      assert acts[..t + 1] == acts;
      AfterRestart(l, acts, t);
    } else if |acts| == t + 2 {
      assert acts[..t + 2] == acts;
      TurnBack(l, acts, t);
    }
  }

  lemma FindRestart(l: seq<Client>, acts: seq<Act>, n: nat) returns (t: nat)
    requires n < |l| - 1 && RestartAt(acts, n)
    ensures FirstRestart(l, acts, t)
  {
    if i :| 0 <= i < n && RestartAt(acts, i) {
      t := FindRestart(l, acts, i);
    } else {
      t := n;
    }
  }

  /**
   A walk that comes to its end has visited every client of the list exactly once, in
   order, exactly if the iterator was never restarted before the last client; otherwise
   it has visited some client again.
   */
  lemma VisitsOnceIff(l: seq<Client>, acts: seq<Act>)
    requires DistinctClients(l) && Finished(After(Start(l), acts))
    ensures Visited(Start(l), acts) == l <==> NoRestart(acts, l)
    ensures DistinctClients(Visited(Start(l), acts)) <==> NoRestart(acts, l)
  {
    hide Left, Step, After, Visited, ListAt, DistinctClients;
    if NoRestart(acts, l) {
      InOrder(l, acts);
      assert acts[..|acts|] == acts;
      assert l[..|l|] == l;
    } else {
      var n :| 0 <= n < |l| - 1 && RestartAt(acts, n);
      var t := FindRestart(l, acts, n);
      FinishedLater(l, acts, t);
      TurnsBack(l, acts, t);
      var v := Visited(Start(l), acts);
      Twice(l, v, t + 2);
    }
  }

  lemma Twice(l: seq<Client>, v: seq<Client>, n: nat)
    requires DistinctClients(l) && n <= |l| && n < |v| && v[..n] == l[..n] && v[n] in l[..n]
    ensures !DistinctClients(v) && v != l
  {
    var i :| 0 <= i < n && l[..n][i] == v[n];
    assert v[i] == v[..n][i] == v[n];
  }
}
