/** src/classes/servers_tasks.h: the records of the recurring scheduler, `CompareTask`, and the
    contract of `std::priority_queue` over it. */
module ServersHeap {
  datatype Status = WAITING | WORKING | SUCCESS | FAIL

  datatype Task = Task(
    status: Status, id: nat, command: nat, serverId: nat,
    repeat: nat, repeatPeriod: nat, counter: nat, executeDate: int)

  function Rank(s: Status): nat {
    match s
    case WAITING => 0
    case WORKING => 1
    case SUCCESS => 2
    case FAIL => 3
  }

  /** `CompareTask`: t1 comes after t2. */
  predicate After(t1: Task, t2: Task) {
    if t1.status == t2.status then t1.executeDate > t2.executeDate
    else Rank(t1.status) > Rank(t2.status)
  }

  function Parent(i: nat): nat
    requires i > 0
    ensures Parent(i) < i
  {
    (i - 1) / 2
  }

  /** No element comes after one of its children. */
  predicate HeapOrdered(q: seq<Task>) {
    forall i :: 1 <= i < |q| ==> !After(q[Parent(i)], q[i])
  }

  /** `push`: the arrangement is the library's, ordered if it was ordered before. */
  predicate Pushed(q: seq<Task>, t: Task, q': seq<Task>) {
    multiset(q') == multiset(q) + multiset{t} && (HeapOrdered(q) ==> HeapOrdered(q'))
  }

  /** `pop` of the top element. */
  predicate Popped(q: seq<Task>, q': seq<Task>)
    requires q != []
  {
    multiset(q') == multiset(q[1..]) && (HeapOrdered(q) ==> HeapOrdered(q'))
  }

  // ---------------------------------------------------------------- the head

  lemma {:induction false} HeadIsFirst(q: seq<Task>, i: nat)
    requires HeapOrdered(q) && i < |q|
    ensures !After(q[0], q[i])
    ensures q[0].status == q[i].status ==> q[0].executeDate <= q[i].executeDate
    ensures q[i].status == WAITING ==> q[0].status == WAITING
    ensures q[i].status == WORKING ==> q[0].status == WAITING || q[0].status == WORKING
    decreases i
  {
    if i > 0 { HeadIsFirst(q, Parent(i)); }
  }

  /** Moving the head's date back keeps the order although the element is in the queue. */
  lemma EarlierHeadKeepsOrder(q: seq<Task>, t: Task)
    requires HeapOrdered(q) && q != [] && t.status == q[0].status && t.executeDate <= q[0].executeDate
    ensures HeapOrdered(q[0 := t])
  {
    var r := q[0 := t];
    forall i | 1 <= i < |r| ensures !After(r[Parent(i)], r[i]) {
      assert !After(q[Parent(i)], q[i]);
    }
  }

  // ---------------------------------------------------------------- sifting

  function Swapped(q: seq<Task>, i: nat, j: nat): (r: seq<Task>)
    requires i < |q| && j < |q|
    ensures |r| == |q|
    ensures multiset(r) == multiset(q)
  {
    q[i := q[j]][j := q[i]]
  }

  /** Ordered but for the element at `i`, which may come before its parent. */
  predicate OrderedAbove(q: seq<Task>, i: nat) {
    && (forall j :: 1 <= j < |q| && j != i ==> !After(q[Parent(j)], q[j]))
    && (forall j :: 1 <= j < |q| && Parent(j) == i && i > 0 ==> !After(q[Parent(i)], q[j]))
  }

  lemma SiftUpStep(q: seq<Task>, i: nat)
    requires 0 < i < |q| && OrderedAbove(q, i) && After(q[Parent(i)], q[i])
    ensures OrderedAbove(Swapped(q, Parent(i), i), Parent(i))
  {
    var p, r := Parent(i), Swapped(q, Parent(i), i);
    forall j | 1 <= j < |r| && j != p ensures !After(r[Parent(j)], r[j]) {
      assert j != i ==> !After(q[Parent(j)], q[j]);
      assert p > 0 ==> !After(q[Parent(p)], q[p]);
    }
    forall j | 1 <= j < |r| && Parent(j) == p && p > 0 ensures !After(r[Parent(p)], r[j]) {
      assert j != i ==> !After(q[Parent(j)], q[j]);
      assert !After(q[Parent(p)], q[p]);
    }
  }

  /** Ordered but for the element at `i`, which may come after its children. */
  predicate OrderedBelow(q: seq<Task>, i: nat) {
    && (forall j :: 1 <= j < |q| && Parent(j) != i ==> !After(q[Parent(j)], q[j]))
    && (forall j :: 1 <= j < |q| && Parent(j) == i && i > 0 ==> !After(q[Parent(i)], q[j]))
  }

  /** `c` is the child of `i` that is to come first, |q| or more if there is none. */
  predicate FirstChild(q: seq<Task>, i: nat, c: nat) {
    && c > 0 && (c < |q| ==> Parent(c) == i)
    && forall j :: 1 <= j < |q| && Parent(j) == i ==> c < |q| && !After(q[c], q[j])
  }

  lemma SiftDownStep(q: seq<Task>, i: nat, c: nat)
    requires i < |q| && c < |q| && FirstChild(q, i, c) && OrderedBelow(q, i) && After(q[i], q[c])
    ensures OrderedBelow(Swapped(q, i, c), c)
  {
    var r := Swapped(q, i, c);
    forall j | 1 <= j < |r| && Parent(j) != c ensures !After(r[Parent(j)], r[j]) {
      assert Parent(j) != i ==> !After(q[Parent(j)], q[j]);
      assert Parent(j) == i ==> !After(q[c], q[j]);
      if j == i { assert !After(q[Parent(i)], q[c]); }
    }
    forall j | 1 <= j < |r| && Parent(j) == c ensures !After(r[Parent(c)], r[j]) {
      assert !After(q[Parent(j)], q[j]);
    }
  }

  /** The step of the sift, when the queue was ordered before the pop. */
  lemma SiftDownIf(ordered: bool, q: seq<Task>, i: nat, c: nat)
    requires i < |q| && c < |q| && FirstChild(q, i, c) && After(q[i], q[c]) && (ordered ==> OrderedBelow(q, i))
    ensures ordered ==> OrderedBelow(Swapped(q, i, c), c)
  {
    if ordered { SiftDownStep(q, i, c); }
  }

  lemma SiftDownEnd(q: seq<Task>, i: nat, c: nat)
    requires i < |q| && OrderedBelow(q, i) && FirstChild(q, i, c) && (c < |q| ==> !After(q[i], q[c]))
    ensures HeapOrdered(q)
  {
  }

  lemma Children(i: nat, j: nat)
    requires j > 0
    ensures Parent(j) == i <==> j == 2 * i + 1 || j == 2 * i + 2
  {
  }

  /** The last element moved to the front, as `pop` does before sifting. */
  lemma LastToFront(q: seq<Task>)
    requires |q| > 1
    ensures var r := [q[|q| - 1]] + q[1..|q| - 1];
            multiset(r) == multiset(q[1..]) && (HeapOrdered(q) ==> OrderedBelow(r, 0))
  {
    var r, last := [q[|q| - 1]] + q[1..|q| - 1], q[|q| - 1];
    assert q[1..] == q[1..|q| - 1] + [last];
    if HeapOrdered(q) {
      forall j | 1 <= j < |r| && Parent(j) != 0 ensures !After(r[Parent(j)], r[j]) {
        assert !After(q[Parent(j)], q[j]);
      }
    }
  }

  lemma AppendOrdered(q: seq<Task>, t: Task)
    ensures multiset(q + [t]) == multiset(q) + multiset{t}
    ensures HeapOrdered(q) ==> OrderedAbove(q + [t], |q|)
  {
    var r := q + [t];
    if HeapOrdered(q) {
      forall j | 1 <= j < |r| && j != |q| ensures !After(r[Parent(j)], r[j]) {
        assert !After(q[Parent(j)], q[j]);
      }
    }
  }
}
