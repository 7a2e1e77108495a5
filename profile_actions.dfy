/**
 * The contract of a profile action: a title, a priority, an icon class and a
 * target.  An action is the record of what its four accessors return; an
 * implementation is a function that produces one.
 */
module ProfileActions {

  datatype ProfileAction = ProfileAction(title: string, priority: int, icon: string, target: string) {

    /** The priority must lie between 0 and 99. */
    predicate Valid() {
      0 <= priority <= 99
    }
  }

  /** Actions are listed in ascending order of priority. */
  predicate Arranged(actions: seq<ProfileAction>) {
    forall i, j :: 0 <= i < j < |actions| ==> actions[i].priority <= actions[j].priority
  }

  /** Puts `a` in front of the first action of higher priority. */
  function Insert(a: ProfileAction, actions: seq<ProfileAction>): (r: seq<ProfileAction>)
    requires Arranged(actions)
    ensures Arranged(r)
    ensures multiset(r) == multiset(actions) + multiset{a}
  {
    if actions == [] || a.priority <= actions[0].priority then
      [a] + actions
    else
      var rest := Insert(a, actions[1..]);
      InsertAfterHead(a, actions, rest);
      [actions[0]] + rest
  }

  /** Putting the head back in front of `a` inserted into the tail keeps the list arranged. */
  lemma InsertAfterHead(a: ProfileAction, actions: seq<ProfileAction>, rest: seq<ProfileAction>)
    requires Arranged(actions) && actions != [] && actions[0].priority < a.priority
    requires Arranged(rest) && multiset(rest) == multiset(actions[1..]) + multiset{a}
    ensures Arranged([actions[0]] + rest)
    ensures multiset([actions[0]] + rest) == multiset(actions) + multiset{a}
  {
    assert actions == [actions[0]] + actions[1..];
    HeadIsLowest(actions);
    BoundedBelow(actions[0].priority, rest, multiset(actions[1..]) + multiset{a});
    var r := [actions[0]] + rest;
    forall i, j | 0 <= i < j < |r| ensures r[i].priority <= r[j].priority {
      if i > 0 {
        assert r[i] == rest[i - 1] && r[j] == rest[j - 1];
      } else {
        assert r[j] == rest[j - 1];
      }
    }
  }

  /** In an arranged list no action comes below the first one. */
  lemma HeadIsLowest(actions: seq<ProfileAction>)
    requires Arranged(actions) && actions != []
    ensures forall x :: x in multiset(actions[1..]) ==> actions[0].priority <= x.priority
  {
    forall x | x in multiset(actions[1..]) ensures actions[0].priority <= x.priority {
      var j :| 0 <= j < |actions[1..]| && actions[1..][j] == x;
      assert actions[j + 1] == x;
    }
  }

  /** Every action of `s` has at least the lowest priority of the multiset it is drawn from. */
  lemma BoundedBelow(low: int, s: seq<ProfileAction>, m: multiset<ProfileAction>)
    requires multiset(s) == m
    requires forall x :: x in m ==> low <= x.priority
    ensures forall k :: 0 <= k < |s| ==> low <= s[k].priority
  {
    forall k | 0 <= k < |s| ensures low <= s[k].priority {
      assert s[k] in multiset(s);
    }
  }

  /** The actions in ascending order of priority. */
  function Arrange(actions: seq<ProfileAction>): (r: seq<ProfileAction>)
    ensures Arranged(r)
    ensures multiset(r) == multiset(actions)
  {
    if actions == [] then []
    else
      assert actions == [actions[0]] + actions[1..];
      Insert(actions[0], Arrange(actions[1..]))
  }

  /** Arranging valid actions yields valid actions. */
  lemma ArrangeKeepsValid(actions: seq<ProfileAction>)
    requires forall a :: a in actions ==> a.Valid()
    ensures forall a :: a in Arrange(actions) ==> a.Valid()
  {
    var r := Arrange(actions);
    forall a | a in r ensures a.Valid() {
      assert a in multiset(r);
    }
  }
}
