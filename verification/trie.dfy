/**
 The handler tree (m_op_tree): four nested maps, one per nibble of the instruction, whose keys
 are either an exact nibble or std::nullopt (operand data). Here the nesting is a recursive
 datatype; `Shaped(t, 4)` says it has exactly the four levels of the C++ type.
 */
module Trie {
  import opened Bits
  import opened Optional
  import opened Codec
  import opened Opcodes

  datatype Trie<H> = Leaf(handler: H) | Node(kids: map<Slot, Trie<H>>)

  /** `depth` levels of maps above the handlers. */
  predicate Shaped<H>(t: Trie<H>, depth: nat)
  {
    if depth == 0 then t.Leaf?
    else t.Node? && forall k :: k in t.kids ==> Shaped(t.kids[k], depth - 1)
  }

  /** The handler stored under a full slot path, if any. */
  function At<H>(t: Trie<H>, p: seq<Slot>): Option<H>
  {
    if |p| == 0 then (if t.Leaf? then Some(t.handler) else None)
    else if t.Node? && p[0] in t.kids then At(t.kids[p[0]], p[1..])
    else None
  }

  lemma AtCons<H>(t: Trie<H>, s: Slot, q: seq<Slot>)
    requires t.Node? && s in t.kids
    ensures At(t, [s] + q) == At(t.kids[s], q)
  {
    assert ([s] + q)[1..] == q;
  }

  /** Only paths as long as the tree is deep can hold a handler. */
  lemma {:induction false} AtDepth<H>(t: Trie<H>, depth: nat, q: seq<Slot>)
    requires Shaped(t, depth) && At(t, q).Some?
    ensures |q| == depth
  {
    if |q| > 0 {
      AtDepth(t.kids[q[0]], depth - 1, q[1..]);
    }
  }

  datatype Inserted<H> = Inserted(tree: Trie<H>, ok: bool)

  /**
   add_op_handler: try_emplace along the path, creating every missing intermediate node, then
   try_emplace the handler at the leaf. Succeeds exactly when the leaf was free; on refusal the
   tree is unchanged, and no other path's handler ever changes.
   */
  function Insert<H>(t: Trie<H>, p: seq<Slot>, h: H): (r: Inserted<H>)
    requires |p| > 0 && Shaped(t, |p|)
    ensures Shaped(r.tree, |p|)
    ensures r.ok <==> At(t, p).None?
    ensures !r.ok ==> r.tree == t
    ensures r.ok ==> At(r.tree, p) == Some(h)
    ensures forall q :: q != p ==> At(r.tree, q) == At(t, q)
    decreases |p|
  {
    var s := p[0];
    if |p| == 1 then
      if s in t.kids then
        assert Shaped(t.kids[s], 0);
        Inserted(t, false)
      else
        var t' := Node(t.kids[s := Leaf(h)]);
        assert forall q :: q != p ==> At(t', q) == At(t, q) by {
          forall q | q != p
            ensures At(t', q) == At(t, q)
          {
            assert |q| == 1 && q[0] == s ==> q == p;
          }
        }
        Inserted(t', true)
    else
      var child := if s in t.kids then t.kids[s] else Node(map[]);
      var r := Insert(child, p[1..], h);
      var t' := Node(t.kids[s := r.tree]);
      assert At(t', p) == At(r.tree, p[1..]);
      assert At(t, p) == At(child, p[1..]);
      assert p == [s] + p[1..];
      assert forall q :: q != p ==> At(t', q) == At(t, q) by {
        forall q | q != p
          ensures At(t', q) == At(t, q)
        {
          assert |q| > 0 && q[0] == s && q[1..] == p[1..] ==> q == p;
        }
      }
      Inserted(t', r.ok)
  }

  /** Above the last level, Insert descends into the child for the first slot (a fresh empty
      node when there is none) and puts the updated child back. */
  lemma InsertStep<H>(t: Trie<H>, s: Slot, p: seq<Slot>, h: H)
    requires |p| > 0 && Shaped(t, |p| + 1)
    ensures var child := if s in t.kids then t.kids[s] else Node(map[]);
      && Shaped(child, |p|)
      && Insert(t, [s] + p, h) == Inserted(Node(t.kids[s := Insert(child, p, h).tree]), Insert(child, p, h).ok)
  {
    assert ([s] + p)[1..] == p;
  }

  /**
   Greedy descent (get_op_handler_for_instruction): at each level take the exact-nibble child if
   there is one, else the operand child, else fail; never come back to try the other child. At
   the root (`root`) only an exact child is accepted.
   */
  function Resolve<H>(t: Trie<H>, ns: seq<nibble>, root: bool): Option<H>
  {
    if |ns| == 0 then (if t.Leaf? then Some(t.handler) else None)
    else if t.Leaf? then None
    else if Fixed(ns[0]) in t.kids then Resolve(t.kids[Fixed(ns[0])], ns[1..], false)
    else if !root && Operand in t.kids then Resolve(t.kids[Operand], ns[1..], false)
    else None
  }

  /** The handler registered for an instruction word, if lookup finds one. */
  function Lookup<H>(t: Trie<H>, w: u16): Option<H>
  {
    Resolve(t, Nibbles(w), true)
  }

  /** Whatever lookup returns is stored under a path that matches the word, exact at the root. */
  lemma {:induction false} ResolveSound<H>(t: Trie<H>, ns: seq<nibble>, root: bool)
    requires Resolve(t, ns, root).Some?
    ensures exists p: seq<Slot> :: At(t, p) == Resolve(t, ns, root) && Matches(p, ns)
                        && (root && |p| > 0 ==> p[0].Fixed?)
  {
    if |ns| == 0 {
      assert At(t, []) == Resolve(t, ns, root) && Matches([], ns);
    } else {
      var s := if Fixed(ns[0]) in t.kids then Fixed(ns[0]) else Operand;
      ResolveSound(t.kids[s], ns[1..], false);
      var q :| At(t.kids[s], q) == Resolve(t.kids[s], ns[1..], false) && Matches(q, ns[1..]);
      AtCons(t, s, q);
      var p := [s] + q;
      assert Matches(p, ns) by {
        forall i | 0 <= i < |p| && p[i].Fixed?
          ensures p[i].v == ns[i]
        {
          if i > 0 { assert p[i] == q[i - 1]; }
        }
      }
      assert At(t, p) == Resolve(t, ns, root);
    }
  }

  lemma LookupSound<H>(t: Trie<H>, w: u16)
    requires Lookup(t, w).Some?
    ensures exists p: seq<Slot> :: At(t, p) == Lookup(t, w) && Matches(p, Nibbles(w)) && p[0].Fixed?
  {
    ResolveSound(t, Nibbles(w), true);
    var p: seq<Slot> :| At(t, p) == Lookup(t, w) && Matches(p, Nibbles(w)) && (|p| > 0 ==> p[0].Fixed?);
  }

  /** No node holds both an exact-nibble child and an operand child. */
  predicate NoMix<H>(t: Trie<H>)
  {
    t.Node? ==>
      && (Operand in t.kids ==> t.kids.Keys == {Operand})
      && forall k :: k in t.kids ==> NoMix(t.kids[k])
  }

  /**
   In a tree where no level mixes exact and operand children, a word matching a stored path
   resolves to exactly that path's handler (root path exact).
   */
  lemma {:induction false} ResolveComplete<H>(t: Trie<H>, p: seq<Slot>, ns: seq<nibble>, root: bool)
    requires NoMix(t) && At(t, p).Some? && Matches(p, ns)
    requires root && |p| > 0 ==> p[0].Fixed?
    ensures Resolve(t, ns, root) == At(t, p)
  {
    if |p| > 0 {
      var s := p[0];
      var rest := p[1..];
      assert Matches(rest, ns[1..]) by {
        forall i | 0 <= i < |rest| && rest[i].Fixed?
          ensures rest[i].v == ns[1..][i]
        {
          assert rest[i] == p[i + 1];
        }
      }
      if s.Fixed? {
        assert s == Fixed(ns[0]);
      } else {
        assert Fixed(ns[0]) !in t.kids by {
          assert t.kids.Keys == {Operand};
        }
      }
      ResolveComplete(t.kids[s], rest, ns[1..], false);
    }
  }

  /** A node below the root that still leads to at least one handler. */
  predicate Inhabited<H>(t: Trie<H>)
  {
    t.Leaf? || |t.kids| > 0
  }

  /** Every node below this one leads to a handler: nodes are only made on the way to a leaf. */
  predicate Pruned<H>(t: Trie<H>)
  {
    t.Node? ==> forall k :: k in t.kids ==> Inhabited(t.kids[k]) && Pruned(t.kids[k])
  }

  ghost function SomePath<H>(t: Trie<H>): (p: seq<Slot>)
    requires Pruned(t) && Inhabited(t)
    ensures At(t, p).Some?
  {
    if t.Leaf? then []
    else
      var k :| k in t.kids;
      var q := SomePath(t.kids[k]);
      AtCons(t, k, q);
      [k] + q
  }

  /**
   Two encodings agree on which slots are operands wherever they share a prefix: the two can
   never put an exact and an operand child under the same node.
   */
  predicate Compatible(p: seq<Slot>, q: seq<Slot>)
  {
    |p| == |q| && forall k :: 0 <= k < |p| && p[..k] == q[..k] ==> (p[k].Fixed? <==> q[k].Fixed?)
  }

  lemma CompatibleTail(p: seq<Slot>, q: seq<Slot>)
    requires |p| > 0 && Compatible(p, q) && p[0] == q[0]
    ensures Compatible(p[1..], q[1..])
  {
    forall k | 0 <= k < |p| - 1 && p[1..][..k] == q[1..][..k]
      ensures p[1..][k].Fixed? <==> q[1..][k].Fixed?
    {
      assert p[..k + 1] == [p[0]] + p[1..][..k];
      assert q[..k + 1] == [q[0]] + q[1..][..k];
    }
  }

  /** Below a pruned node, every child key is of the kind a compatible path takes at this level. */
  lemma SiblingsAgree<H>(t: Trie<H>, p: seq<Slot>)
    requires |p| > 0 && t.Node? && Pruned(t)
    requires forall q :: At(t, q).Some? ==> Compatible(p, q)
    ensures forall k :: k in t.kids ==> (k.Fixed? <==> p[0].Fixed?)
  {
    forall k | k in t.kids
      ensures k.Fixed? <==> p[0].Fixed?
    {
      var rest := SomePath(t.kids[k]);
      AtCons(t, k, rest);
      var q := [k] + rest;
      assert Compatible(p, q);
      assert p[..0] == q[..0];
    }
  }

  /** A compatible path stays compatible with everything below its own first key. */
  lemma CompatibleBelow<H>(t: Trie<H>, p: seq<Slot>, child: Trie<H>)
    requires |p| > 0 && t.Node?
    requires forall q :: At(t, q).Some? ==> Compatible(p, q)
    requires child == (if p[0] in t.kids then t.kids[p[0]] else Node(map[]))
    ensures forall q :: At(child, q).Some? ==> Compatible(p[1..], q)
  {
    var s := p[0];
    forall q | At(child, q).Some?
      ensures Compatible(p[1..], q)
    {
      AtCons(t, s, q);
      assert Compatible(p, [s] + q);
      assert ([s] + q)[1..] == q;
      CompatibleTail(p, [s] + q);
    }
  }

  /** Replacing one child of a node keeps it unmixed and pruned when the new key has the kind of
      all its siblings and the new child is itself unmixed, pruned and inhabited. */
  lemma UpdateKeepsNoMix<H>(t: Trie<H>, s: Slot, c: Trie<H>)
    requires t.Node? && NoMix(t) && Pruned(t)
    requires forall k :: k in t.kids ==> (k.Fixed? <==> s.Fixed?)
    requires NoMix(c) && Pruned(c) && Inhabited(c)
    ensures NoMix(Node(t.kids[s := c])) && Pruned(Node(t.kids[s := c]))
  {
    var kids := t.kids[s := c];
    if Operand in kids {
      assert s == Operand;
      assert forall k :: k in kids ==> k == Operand;
      assert kids.Keys == {Operand};
    }
  }

  /** Inserting a path compatible with every stored one keeps levels unmixed and pruned. */
  lemma {:induction false} InsertKeepsNoMix<H>(t: Trie<H>, p: seq<Slot>, h: H)
    requires |p| > 0 && Shaped(t, |p|) && NoMix(t) && Pruned(t)
    requires forall q :: At(t, q).Some? ==> Compatible(p, q)
    ensures NoMix(Insert(t, p, h).tree) && Pruned(Insert(t, p, h).tree)
    decreases |p|
  {
    var r := Insert(t, p, h);
    var s := p[0];
    if r.ok {
      SiblingsAgree(t, p);
      var t' := r.tree;
      if |p| == 1 {
        assert t' == Node(t.kids[s := Leaf(h)]);
        UpdateKeepsNoMix(t, s, Leaf(h));
      } else {
        var child := if s in t.kids then t.kids[s] else Node(map[]);
        var rc := Insert(child, p[1..], h);
        assert t' == Node(t.kids[s := rc.tree]);
        CompatibleBelow(t, p, child);
        InsertKeepsNoMix(child, p[1..], h);
        assert At(rc.tree, p[1..]).Some?;
        assert Inhabited(rc.tree);
        UpdateKeepsNoMix(t, s, rc.tree);
      }
    }
  }

  datatype Built<H> = Built(tree: Trie<H>, results: seq<bool>)

  /** setup_op_handlers: add every entry in order to an initially empty tree, keeping each result. */
  function Build<H>(es: seq<(seq<Slot>, H)>): (b: Built<H>)
    requires forall i :: 0 <= i < |es| ==> |es[i].0| == 4
    ensures Shaped(b.tree, 4) && |b.results| == |es|
  {
    if |es| == 0 then Built(Node(map[]), [])
    else
      var prev := Build(es[..|es| - 1]);
      var r := Insert(prev.tree, es[|es| - 1].0, es[|es| - 1].1);
      Built(r.tree, prev.results + [r.ok])
  }

  /** What Build requires of its entries to register them all. */
  predicate Registrable<H>(es: seq<(seq<Slot>, H)>)
  {
    && (forall i :: 0 <= i < |es| ==> |es[i].0| == 4)
    && (forall i, j :: 0 <= i < j < |es| ==> es[i].0 != es[j].0)
    && (forall i, j :: 0 <= i < |es| && 0 <= j < |es| ==> Compatible(es[i].0, es[j].0))
  }

  lemma RegistrablePrefix<H>(es: seq<(seq<Slot>, H)>)
    requires |es| > 0 && Registrable(es)
    ensures Registrable(es[..|es| - 1])
  {
  }

  /**
   Registering pairwise distinct, pairwise compatible encodings: every registration succeeds,
   each encoding holds its own handler, nothing else is stored, and no level is mixed.
   */
  lemma BuildRegistersAll<H>(es: seq<(seq<Slot>, H)>)
    requires forall i :: 0 <= i < |es| ==> |es[i].0| == 4
    requires forall i, j :: 0 <= i < j < |es| ==> es[i].0 != es[j].0
    requires forall i, j :: 0 <= i < |es| && 0 <= j < |es| ==> Compatible(es[i].0, es[j].0)
    ensures forall i :: 0 <= i < |es| ==> Build(es).results[i]
    ensures forall i :: 0 <= i < |es| ==> At(Build(es).tree, es[i].0) == Some(es[i].1)
    ensures forall p :: At(Build(es).tree, p).Some? ==> (p, At(Build(es).tree, p).value) in es
    ensures NoMix(Build(es).tree) && Pruned(Build(es).tree)
  {
    BuildStores(es);
    BuildUnmixed(es);
  }

  /** Distinct encodings all register, each holds its own handler, and nothing else is stored. */
  lemma {:induction false} BuildStores<H>(es: seq<(seq<Slot>, H)>)
    requires Registrable(es)
    ensures forall i :: 0 <= i < |es| ==> Build(es).results[i]
    ensures forall i :: 0 <= i < |es| ==> At(Build(es).tree, es[i].0) == Some(es[i].1)
    ensures forall p :: At(Build(es).tree, p).Some? ==> (p, At(Build(es).tree, p).value) in es
  {
    if |es| > 0 {
      var n := |es| - 1;
      var pre := es[..n];
      var prev := Build(pre);
      RegistrablePrefix(es);
      BuildStores(pre);
      var e := es[n].0;
      FreshEntry(es);
      assert es == pre + [es[n]];
      InsertExtends(prev.tree, pre, e, es[n].1);
    }
  }

  /** Compatible encodings build a tree with no mixed level and no empty branch. */
  lemma {:induction false} BuildUnmixed<H>(es: seq<(seq<Slot>, H)>)
    requires Registrable(es)
    ensures NoMix(Build(es).tree) && Pruned(Build(es).tree)
  {
    if |es| > 0 {
      var n := |es| - 1;
      var pre := es[..n];
      RegistrablePrefix(es);
      BuildUnmixed(pre);
      BuildStores(pre);
      FreshEntry(es);
      BuildStepNoMix(Build(pre).tree, pre, es[n].0, es[n].1);
    }
  }

  /** The last entry's encoding is not among the earlier ones, and is compatible with them. */
  lemma FreshEntry<H>(es: seq<(seq<Slot>, H)>)
    requires |es| > 0
    requires forall i, j :: 0 <= i < j < |es| ==> es[i].0 != es[j].0
    requires forall i, j :: 0 <= i < |es| && 0 <= j < |es| ==> Compatible(es[i].0, es[j].0)
    ensures forall x :: x in es[..|es| - 1] ==> x.0 != es[|es| - 1].0 && Compatible(es[|es| - 1].0, x.0)
  {
    var n := |es| - 1;
    forall x | x in es[..n]
      ensures x.0 != es[n].0 && Compatible(es[n].0, x.0)
    {
      var i :| 0 <= i < n && es[..n][i] == x;
      assert es[i] == x;
    }
  }

  /** One registration step keeps the tree unmixed and pruned. */
  lemma BuildStepNoMix<H>(t: Trie<H>, pre: seq<(seq<Slot>, H)>, e: seq<Slot>, h: H)
    requires |e| == 4 && Shaped(t, 4) && NoMix(t) && Pruned(t)
    requires forall p :: At(t, p).Some? ==> (p, At(t, p).value) in pre
    requires forall x :: x in pre ==> x.0 != e && Compatible(e, x.0)
    ensures At(t, e).None?
    ensures NoMix(Insert(t, e, h).tree) && Pruned(Insert(t, e, h).tree)
  {
    forall q | At(t, q).Some?
      ensures Compatible(e, q)
    {
      assert (q, At(t, q).value) in pre;
    }
    InsertKeepsNoMix(t, e, h);
  }

  /** Inserting a fresh entry into a tree that holds exactly pre gives one that holds exactly
      pre followed by the entry. */
  lemma InsertExtends<H>(t: Trie<H>, pre: seq<(seq<Slot>, H)>, e: seq<Slot>, h: H)
    requires |e| == 4 && Shaped(t, 4) && At(t, e).None?
    requires forall i :: 0 <= i < |pre| ==> At(t, pre[i].0) == Some(pre[i].1)
    requires forall p :: At(t, p).Some? ==> (p, At(t, p).value) in pre
    ensures var r := Insert(t, e, h).tree;
      (forall i :: 0 <= i < |pre + [(e, h)]| ==> At(r, (pre + [(e, h)])[i].0) == Some((pre + [(e, h)])[i].1)) &&
      (forall p :: At(r, p).Some? ==> (p, At(r, p).value) in pre + [(e, h)])
  {
    var es := pre + [(e, h)];
    var r := Insert(t, e, h).tree;
    forall i | 0 <= i < |es|
      ensures At(r, es[i].0) == Some(es[i].1)
    {
      if i < |pre| {
        assert es[i] == pre[i];
        assert pre[i].0 != e;
      }
    }
    forall p | At(r, p).Some?
      ensures (p, At(r, p).value) in es
    {
      if p != e {
        assert (p, At(t, p).value) in pre;
      } else {
        assert es[|pre|] == (p, At(r, p).value);
      }
    }
  }

  /** One more entry: Build adds it to the tree built so far and appends its result. */
  lemma BuildSnoc<H>(es: seq<(seq<Slot>, H)>, e: (seq<Slot>, H))
    requires forall i :: 0 <= i < |es| ==> |es[i].0| == 4
    requires |e.0| == 4
    ensures var r := Insert(Build(es).tree, e.0, e.1);
      Build(es + [e]) == Built(r.tree, Build(es).results + [r.ok])
  {
    assert (es + [e])[..|es|] == es;
  }

  /** Three entries, inserted one after the other into the empty tree. */
  lemma BuildThree<H>(a: (seq<Slot>, H), b: (seq<Slot>, H), c: (seq<Slot>, H))
    requires |a.0| == 4 && |b.0| == 4 && |c.0| == 4
    ensures var ra := Insert(Node(map[]), a.0, a.1);
      var rb := Insert(ra.tree, b.0, b.1);
      var rc := Insert(rb.tree, c.0, c.1);
      Build([a, b, c]) == Built(rc.tree, [ra.ok, rb.ok, rc.ok])
  {
    BuildTwo(a, b);
    assert [a, b, c][..2] == [a, b];
  }

  lemma BuildTwo<H>(a: (seq<Slot>, H), b: (seq<Slot>, H))
    requires |a.0| == 4 && |b.0| == 4
    ensures var ra := Insert(Node(map[]), a.0, a.1);
      var rb := Insert(ra.tree, b.0, b.1);
      Build([a, b]) == Built(rb.tree, [ra.ok, rb.ok])
  {
    var ra := Insert(Node(map[]), a.0, a.1);
    assert [a][..0] == [];
    assert Build([a]) == Built(ra.tree, [ra.ok]);
    assert [a, b][..1] == [a];
  }

  /** Later registrations never change the results of earlier ones. */
  lemma {:induction false} BuildKeepsResults<H>(es: seq<(seq<Slot>, H)>, k: nat)
    requires forall i :: 0 <= i < |es| ==> |es[i].0| == 4
    requires k <= |es|
    ensures Build(es).results[..k] == Build(es[..k]).results
  {
    if k < |es| {
      var n := |es| - 1;
      var prev := Build(es[..n]);
      var x := Insert(prev.tree, es[n].0, es[n].1).ok;
      assert Build(es).results == prev.results + [x];
      assert (prev.results + [x])[..k] == prev.results[..k];
      assert es[..n][..k] == es[..k];
      BuildKeepsResults(es[..n], k);
    } else {
      assert es[..k] == es;
    }
  }

  /** The sequence with the element at i taken out. */
  function Without<T>(s: seq<T>, i: nat): (d: seq<T>)
    requires i < |s|
    ensures |d| == |s| - 1
    ensures forall j :: 0 <= j < |d| ==> d[j] == s[if j < i then j else j + 1]
  {
    s[..i] + s[i + 1..]
  }

  /** Taking out an entry before the last commutes with appending the last. */
  lemma WithoutLast<T>(es: seq<T>, i: nat)
    requires i < |es| - 1
    ensures es == es[..|es| - 1] + [es[|es| - 1]]
    ensures Without(es, i) == Without(es[..|es| - 1], i) + [es[|es| - 1]]
  {
  }

  /** An entry whose registration is refused leaves no trace: the tree is the one built without it. */
  lemma {:induction false} RefusedEntryVanishes<H>(es: seq<(seq<Slot>, H)>, i: nat)
    requires forall j :: 0 <= j < |es| ==> |es[j].0| == 4
    requires i < |es| && !Insert(Build(es[..i]).tree, es[i].0, es[i].1).ok
    ensures Build(es).tree == Build(Without(es, i)).tree
  {
    var d := Without(es, i);
    var n := |es| - 1;
    if n == i {
      assert d == es[..n];
    } else {
      var pre := es[..n];
      assert pre[..i] == es[..i];
      RefusedEntryVanishes(pre, i);
      var dpre := Without(pre, i);
      WithoutLast(es, i);
      BuildSnoc(dpre, es[n]);
      BuildSnoc(pre, es[n]);
    }
  }

  /** An entry whose encoding an earlier entry already holds is refused and leaves no trace. */
  lemma TakenEntryRefused<H>(es: seq<(seq<Slot>, H)>, i: nat)
    requires forall j :: 0 <= j < |es| ==> |es[j].0| == 4
    requires i < |es| && At(Build(es[..i]).tree, es[i].0).Some?
    ensures !Build(es).results[i]
    ensures Build(es).tree == Build(Without(es, i)).tree
  {
    assert es[..i + 1] == es[..i] + [es[i]];
    BuildSnoc(es[..i], es[i]);
    BuildKeepsResults(es, i + 1);
    assert Build(es).results[i] == Build(es[..i + 1]).results[i];
    RefusedEntryVanishes(es, i);
  }
}
