/** Searching an AST for a node of a given kind. A slot of the tree (the place a child
    pointer is stored) is named here by its path of child positions from the root; the
    search can record the slots it hands out in a list of visited slots, so that repeated
    searches yield different nodes. */
module NodeFind {
  import opened Wrappers
  import opened Kinds

  /** The shape of an AST: each node's kind and its children in order. */
  datatype Tree = Tree(kind: Kind, children: seq<Tree>)

  type Path = seq<nat>

  /** A slot met by the search: where it is and the kind of the node it holds. */
  datatype Entry = Entry(slot: Path, kind: Kind)

  /** The slots below the node at `at`, in the order `find_slot` meets them: each child, then
      everything below that child, then the next child. */
  function Entries(t: Tree, at: Path): seq<Entry>
    decreases t, 1
  {
    ChildEntries(t.children, at, 0)
  }

  function ChildEntries(cs: seq<Tree>, at: Path, i: nat): seq<Entry>
    decreases cs, 0
  {
    if cs == [] then []
    else [Entry(at + [i], cs[0].kind)] + Entries(cs[0], at + [i]) + ChildEntries(cs[1..], at, i + 1)
  }

  /** A slot the search accepts: of the wanted kind and not visited before. */
  predicate Hit(e: Entry, kind: Kind, visited: seq<Path>)
  {
    e.kind == kind && e.slot !in visited
  }

  /** The position of the first accepted slot. */
  function FirstHit(es: seq<Entry>, kind: Kind, visited: seq<Path>): (r: Option<nat>)
    ensures r.Some? ==> r.value < |es| && Hit(es[r.value], kind, visited)
    ensures r.Some? ==> forall j :: 0 <= j < r.value ==> !Hit(es[j], kind, visited)
    ensures r.None? ==> forall j :: 0 <= j < |es| ==> !Hit(es[j], kind, visited)
  {
    if es == [] then None
    else if Hit(es[0], kind, visited) then Some(0)
    else
      var rest := FirstHit(es[1..], kind, visited);
      if rest.None? then None else Some(rest.value + 1)
  }

  /** The slot the search returns, if any. */
  function FirstSlot(es: seq<Entry>, kind: Kind, visited: seq<Path>): Option<Path>
  {
    var r := FirstHit(es, kind, visited);
    if r.None? then None else Some(es[r.value].slot)
  }

  /** The visited list after a search: the slot handed out is recorded when tracking. */
  function Record(visited: seq<Path>, found: Option<Path>, track: bool): seq<Path>
  {
    if track && found.Some? then visited + [found.value] else visited
  }

  /** Searching two pieces in turn is searching the whole. */
  lemma {:induction false} FirstHitAppend(a: seq<Entry>, b: seq<Entry>, kind: Kind, visited: seq<Path>)
    ensures var ra := FirstHit(a, kind, visited);
            var rb := FirstHit(b, kind, visited);
            FirstHit(a + b, kind, visited)
              == if ra.Some? then ra else if rb.None? then None else Some(rb.value + |a|)
  {
    if a == [] {
      assert a + b == b;
    } else {
      assert (a + b)[1..] == a[1..] + b;
      FirstHitAppend(a[1..], b, kind, visited);
    }
  }

  /** The first accepted slot of two pieces searched in turn is that of the whole. */
  lemma FirstSlotAppend(a: seq<Entry>, b: seq<Entry>, kind: Kind, visited: seq<Path>)
    ensures FirstSlot(a + b, kind, visited)
              == if FirstSlot(a, kind, visited).Some? then FirstSlot(a, kind, visited) else FirstSlot(b, kind, visited)
  {
    FirstHitAppend(a, b, kind, visited);
    var ra := FirstHit(a, kind, visited);
    var rb := FirstHit(b, kind, visited);
    if ra.Some? {
      assert (a + b)[ra.value] == a[ra.value];
    } else if rb.Some? {
      assert (a + b)[rb.value + |a|] == b[rb.value];
    }
  }

  lemma ChildEntriesFrom(cs: seq<Tree>, at: Path, i: nat)
    requires i < |cs|
    ensures ChildEntries(cs[i..], at, i)
              == [Entry(at + [i], cs[i].kind)] + Entries(cs[i], at + [i]) + ChildEntries(cs[i + 1..], at, i + 1)
  {
    assert cs[i..][1..] == cs[i + 1..];
  }

  /** `find_slot(kind, visited_slots, track_visited)` on the node at `at`: the first slot below
      it, in the order of `Entries`, holding a node of the kind and not yet visited, with the
      visited list as the search leaves it. */
  method FindSlot(t: Tree, at: Path, kind: Kind, visited: seq<Path>, track: bool) returns (found: Option<Path>, visitedOut: seq<Path>)
    ensures found == FirstSlot(Entries(t, at), kind, visited)
    ensures visitedOut == Record(visited, found, track)
    decreases t
  {
    assert t.children[0..] == t.children;
    var i := 0;
    while i < |t.children|
      invariant 0 <= i <= |t.children|
      invariant FirstSlot(Entries(t, at), kind, visited) == FirstSlot(ChildEntries(t.children[i..], at, i), kind, visited)
    {
      var child := t.children[i];
      ChildEntriesFrom(t.children, at, i);
      var head := [Entry(at + [i], child.kind)];
      FirstSlotAppend(head + Entries(child, at + [i]), ChildEntries(t.children[i + 1..], at, i + 1), kind, visited);
      FirstSlotAppend(head, Entries(child, at + [i]), kind, visited);
      if child.kind == kind && at + [i] !in visited {
        assert FirstHit(head, kind, visited) == Some(0);
        found := Some(at + [i]);
        visitedOut := Record(visited, found, track);
        return;
      }
      assert FirstSlot(head, kind, visited) == None;
      found, visitedOut := FindSlot(child, at + [i], kind, visited, track);
      if found.Some? {
        return;
      }
      i := i + 1;
    }
    found := None;
    visitedOut := visited;
  }

  /** `find(kind)`: the root itself when it has the kind, else the first node of the kind
      below it in the search order, or nothing. */
  method Find(t: Tree, kind: Kind) returns (found: Option<Path>)
    ensures t.kind == kind ==> found == Some([])
    ensures t.kind != kind ==> found == FirstSlot(Entries(t, []), kind, [])
  {
    if t.kind == kind {
      return Some([]);
    }
    var visitedOut;
    found, visitedOut := FindSlot(t, [], kind, [], true);
  }

  /** A search from a fresh visited list finds a slot exactly when some slot holds the kind,
      and it holds the kind. */
  lemma FindsAnyOfKind(es: seq<Entry>, kind: Kind)
    ensures FirstSlot(es, kind, []).Some? <==> exists j :: 0 <= j < |es| && es[j].kind == kind
    ensures FirstSlot(es, kind, []).Some? ==> exists j :: 0 <= j < |es| && es[j] == Entry(FirstSlot(es, kind, []).value, kind)
  {
    var r := FirstHit(es, kind, []);
    if r.Some? {
      assert es[r.value] == Entry(FirstSlot(es, kind, []).value, kind);
    }
  }

  /** A tracked search never hands out the same slot twice in a row: once the slot it found is
      recorded, the next search finds a slot strictly further along, or none. */
  lemma TrackedSearchMovesOn(es: seq<Entry>, kind: Kind, visited: seq<Path>)
    requires FirstHit(es, kind, visited).Some?
    ensures var i := FirstHit(es, kind, visited).value;
            var next := FirstHit(es, kind, Record(visited, Some(es[i].slot), true));
            es[i].slot !in visited
            && (next.Some? ==> next.value > i && es[next.value].slot != es[i].slot)
  {
    var i := FirstHit(es, kind, visited).value;
    var v := Record(visited, Some(es[i].slot), true);
    var next := FirstHit(es, kind, v);
    if next.Some? {
      assert Hit(es[next.value], kind, v);
      assert es[next.value].slot != es[i].slot;
    }
  }

  /** A search never returns a slot that was already visited, whatever came before. */
  lemma FoundIsUnvisited(es: seq<Entry>, kind: Kind, visited: seq<Path>)
    ensures FirstSlot(es, kind, visited).Some? ==>
              FirstSlot(es, kind, visited).value !in visited
              && exists j :: 0 <= j < |es| && es[j] == Entry(FirstSlot(es, kind, visited).value, kind)
  {
    var r := FirstHit(es, kind, visited);
    if r.Some? {
      assert es[r.value] == Entry(FirstSlot(es, kind, visited).value, kind);
    }
  }
}
