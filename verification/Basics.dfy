/** Result types and the small facts about sequences that every other module uses. */
module Basics {

  datatype Option<+T> = None | Some(value: T)

  datatype Result<+T, +E> = Success(value: T) | Failure(error: E) {
    predicate IsFailure() {
      Failure?
    }

    function PropagateFailure<U>(): Result<U, E>
      requires Failure?
    {
      Failure(error)
    }

    function Extract(): T
      requires Success?
    {
      value
    }
  }

  /** How a file takes one write: all of it, or an error that leaves something else behind. */
  datatype Write = Stored | Torn(left: string)

  function Written(text: string, w: Write): string {
    if w.Stored? then text else w.left
  }

  /** Apply f to every element, stopping at the first failure. */
  function Traverse<A, B, E>(f: A -> Result<B, E>, xs: seq<A>): Result<seq<B>, E> {
    if xs == [] then Success([])
    else
      var head :- f(xs[0]);
      var tail :- Traverse(f, xs[1..]);
      Success([head] + tail)
  }

  /** What a loop has left to produce, put behind what it has produced. */
  function After<B, E>(done: seq<B>, rest: Result<seq<B>, E>): (r: Result<seq<B>, E>)
    ensures done == [] ==> r == rest
    ensures rest == Success([]) ==> r == Success(done)
  {
    if rest.Failure? then rest
    else
      assert [] + rest.value == rest.value && done + [] == done;
      Success(done + rest.value)
  }

  /** A loop over xs that has everything left, and one that has nothing left. */
  lemma TraverseEnds<A, B, E>(f: A -> Result<B, E>, xs: seq<A>)
    ensures Traverse(f, xs[0..]) == Traverse(f, xs)
    ensures Traverse(f, xs[|xs|..]) == Success([])
  {
    assert xs[0..] == xs && xs[|xs|..] == [];
  }

  lemma TraverseStep<A, B, E>(f: A -> Result<B, E>, xs: seq<A>, i: nat, done: seq<B>)
    requires i < |xs|
    ensures f(xs[i]).Success? ==>
              After(done, Traverse(f, xs[i..])) == After(done + [f(xs[i]).value], Traverse(f, xs[i + 1..]))
    ensures f(xs[i]).Failure? ==> Traverse(f, xs[i..]) == Failure(f(xs[i]).error)
  {
    assert xs[i..][1..] == xs[i + 1..];
    if f(xs[i]).Success? && Traverse(f, xs[i + 1..]).Success? {
      var head, tail := f(xs[i]).value, Traverse(f, xs[i + 1..]).value;
      assert done + ([head] + tail) == (done + [head]) + tail;
    }
  }

  lemma {:induction false} TraverseElements<A, B, E>(f: A -> Result<B, E>, xs: seq<A>)
    ensures Traverse(f, xs).Success? <==> forall i :: 0 <= i < |xs| ==> f(xs[i]).Success?
    ensures Traverse(f, xs).Success? ==>
              && |Traverse(f, xs).value| == |xs|
              && forall i :: 0 <= i < |xs| ==> f(xs[i]) == Success(Traverse(f, xs).value[i])
  {
    if xs != [] {
      TraverseElements(f, xs[1..]);
      assert forall i :: 1 <= i < |xs| ==> xs[i] == xs[1..][i - 1];
      if Traverse(f, xs[1..]).Failure? {
        var i :| 0 <= i < |xs[1..]| && f(xs[1..][i]).Failure?;
        assert xs[i + 1] == xs[1..][i];
      }
    }
  }

  /** It fails with the first failure. */
  lemma {:induction false} TraverseFails<A, B, E>(f: A -> Result<B, E>, xs: seq<A>) returns (k: nat)
    requires Traverse(f, xs).Failure?
    ensures k < |xs| && f(xs[k]) == Failure(Traverse(f, xs).error)
    ensures forall i :: 0 <= i < k ==> f(xs[i]).Success?
  {
    if f(xs[0]).Failure? {
      k := 0;
    } else {
      var j := TraverseFails(f, xs[1..]);
      k := j + 1;
      assert forall i :: 1 <= i < k ==> xs[i] == xs[1..][i - 1];
    }
  }

  lemma MoveBrackets<T>(a: seq<T>, b: seq<T>, c: seq<T>, whole: seq<T>)
    requires a + (b + c) == whole
    ensures (a + b) + c == whole
  {
  }

  /** No value occurs twice. */
  ghost predicate NoDup<T>(s: seq<T>) {
    forall i, j :: 0 <= i < j < |s| ==> s[i] != s[j]
  }

  ghost function Elems<T>(s: seq<T>): set<T> {
    set x | x in s
  }

  function Flatten<T>(ss: seq<seq<T>>): seq<T> {
    if ss == [] then [] else ss[0] + Flatten(ss[1..])
  }

  lemma {:induction false} FlattenSnoc<T>(ss: seq<seq<T>>, s: seq<T>)
    ensures Flatten(ss + [s]) == Flatten(ss) + s
  {
    if ss == [] {
      assert (ss + [s])[1..] == [];
    } else {
      assert (ss + [s])[1..] == ss[1..] + [s];
      FlattenSnoc(ss[1..], s);
    }
  }

  lemma {:induction false} FlattenMember<T>(ss: seq<seq<T>>, x: T)
    ensures x in Flatten(ss) <==> exists i :: 0 <= i < |ss| && x in ss[i]
  {
    if ss != [] {
      FlattenMember(ss[1..], x);
      if i :| 0 <= i < |ss| && x in ss[i] {
        if i > 0 {
          assert ss[1..][i - 1] == ss[i];
        }
      }
      if j :| 0 <= j < |ss[1..]| && x in ss[1..][j] {
        assert ss[j + 1] == ss[1..][j];
      }
    }
  }

  lemma NoDupSnoc<T>(s: seq<T>, x: T)
    ensures NoDup(s + [x]) <==> NoDup(s) && x !in s
  {
    var t := s + [x];
    assert forall i :: 0 <= i < |s| ==> t[i] == s[i];
    assert t[|s|] == x;
    if NoDup(t) {
      forall i, j | 0 <= i < j < |s|
        ensures s[i] != s[j]
      {
        assert t[i] != t[j];
      }
    }
  }

  lemma ElemsSnoc<T>(s: seq<T>, x: T)
    ensures Elems(s + [x]) == Elems(s) + {x}
  {
  }

  /** The table that a loop of `table[key] = value` leaves behind. */
  function TableOf<V>(entries: seq<(string, V)>): (m: map<string, V>)
  {
    if entries == [] then map[]
    else
      var last := entries[|entries| - 1];
      TableOf(entries[..|entries| - 1])[last.0 := last.1]
  }

  /** With distinct keys the table holds every entry, and nothing else. */
  lemma {:induction false} TableOfDistinct<V>(entries: seq<(string, V)>)
    requires forall i, j :: 0 <= i < j < |entries| ==> entries[i].0 != entries[j].0
    ensures forall i :: 0 <= i < |entries| ==>
              entries[i].0 in TableOf(entries) && TableOf(entries)[entries[i].0] == entries[i].1
    ensures forall k :: k in TableOf(entries) ==> exists i :: 0 <= i < |entries| && entries[i].0 == k
  {
    if entries != [] {
      var n := |entries| - 1;
      TableOfDistinct(entries[..n]);
      forall i | 0 <= i < |entries|
        ensures entries[i].0 in TableOf(entries) && TableOf(entries)[entries[i].0] == entries[i].1
      {
        if i < n {
          assert entries[..n][i] == entries[i];
        }
      }
      forall k | k in TableOf(entries)
        ensures exists i :: 0 <= i < |entries| && entries[i].0 == k
      {
        if k == entries[n].0 {
        } else {
          var i :| 0 <= i < n && entries[..n][i].0 == k;
          assert entries[i].0 == k;
        }
      }
    }
  }
}
