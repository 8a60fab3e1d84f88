/**
 The registered handler sets of the two source trees and what the dispatch tree built from
 them resolves: every word to exactly the handler the opcode table assigns it.
 */
module Dispatch {
  import opened Bits
  import opened Optional
  import opened Codec
  import opened Opcodes
  import opened Trie

  /** setup_op_handlers of the older tree: RET through RND only. */
  const LegacyRegistered: seq<Op> := [
    Ret, Jp, Call, SeVxKk, SneVxKk, SeVxVy, LdVxKk, AddVxKk,
    LdVxVy, OrVxVy, AndVxVy, XorVxVy, AddVxVy, SubVxVy, ShrVxVy, SubnVxVy, ShlVxVy,
    SneVxVy, LdINnn, JpV0Nnn, RndVxKk]

  /** The handlers after RND, which only the current tree registers. */
  const LateRegistered: seq<Op> := [
    DrwVxVyN, SkpVx, SknpVx, LdVxDt, LdVxK, LdDtVx, LdStVx, AddIVx, LdFVx, LdBVx, LdMemVx, LdVxMem]

  /** setup_op_handlers of the current tree: every handler but SYS, in declaration order, that
      is CLS, then the older tree's list, then the later handlers. */
  const Registered: seq<Op> := [Cls] + LegacyRegistered + LateRegistered

  /** The (encoding, handler) pairs added to the tree, in order. */
  function Entries(ops: seq<Op>): (es: seq<(seq<Slot>, Op)>)
    ensures |es| == |ops|
    ensures forall i :: 0 <= i < |ops| ==> es[i] == (EncodingOf(ops[i]), ops[i])
  {
    seq(|ops|, i requires 0 <= i < |ops| => (EncodingOf(ops[i]), ops[i]))
  }

  /** The op tree a freshly constructed cpu holds. */
  function OpTree(): Trie<Op>
  {
    Build(Entries(Registered)).tree
  }

  function LegacyOpTree(): Trie<Op>
  {
    Build(Entries(LegacyRegistered)).tree
  }

  /** Distinct handlers other than SYS give distinct, mutually compatible entries. */
  lemma EntriesRegistrable(ops: seq<Op>)
    requires Sys !in ops
    requires forall i, j :: 0 <= i < j < |ops| ==> ops[i] != ops[j]
    ensures forall i, j :: 0 <= i < j < |Entries(ops)| ==> Entries(ops)[i].0 != Entries(ops)[j].0
    ensures forall i, j :: 0 <= i < |Entries(ops)| && 0 <= j < |Entries(ops)| ==>
              Compatible(Entries(ops)[i].0, Entries(ops)[j].0)
  {
    var es := Entries(ops);
    forall i, j | 0 <= i < j < |es|
      ensures es[i].0 != es[j].0
    {
      EncodingInjective(ops[i], ops[j]);
    }
    forall i, j | 0 <= i < |es| && 0 <= j < |es|
      ensures Compatible(es[i].0, es[j].0)
    {
      CompatibleEncodings(ops[i], ops[j]);
    }
  }

  /** What a tree holds after registering a list of handlers: each under its own encoding, and
      nothing else. */
  ghost predicate Holds(t: Trie<Op>, ops: seq<Op>)
  {
    && NoMix(t)
    && (forall i :: 0 <= i < |ops| ==> At(t, EncodingOf(ops[i])) == Some(ops[i]))
    && (forall p :: At(t, p).Some? ==> (p, At(t, p).value) in Entries(ops))
  }

  lemma BuildHolds(ops: seq<Op>)
    requires Sys !in ops
    requires forall i, j :: 0 <= i < j < |ops| ==> ops[i] != ops[j]
    ensures forall i :: 0 <= i < |ops| ==> Build(Entries(ops)).results[i]
    ensures Holds(Build(Entries(ops)).tree, ops)
  {
    EntriesRegistrable(ops);
    BuildRegistersAll(Entries(ops));
  }

  /** Only a handler of the list whose encoding matches the word can be found. */
  lemma FoundIsListed(t: Trie<Op>, ops: seq<Op>, w: u16)
    requires Sys !in ops && Holds(t, ops) && Lookup(t, w).Some?
    ensures Lookup(t, w) == Decode(w) && Decode(w).value in ops
  {
    LookupSound(t, w);
    var p: seq<Slot> :| At(t, p) == Lookup(t, w) && Matches(p, Nibbles(w)) && p[0].Fixed?;
    var es := Entries(ops);
    assert (p, Lookup(t, w).value) in es;
    var i :| 0 <= i < |es| && es[i] == (p, Lookup(t, w).value);
    DecodeAgrees(ops[i], w);
  }

  /** A listed handler named by the table for the word is found. */
  lemma ListedIsFound(t: Trie<Op>, ops: seq<Op>, w: u16)
    requires Sys !in ops && Holds(t, ops) && Decode(w).Some? && Decode(w).value in ops
    ensures Lookup(t, w) == Decode(w)
  {
    var op := Decode(w).value;
    var i :| 0 <= i < |ops| && ops[i] == op;
    DecodeAgrees(op, w);
    ResolveComplete(t, EncodingOf(op), Nibbles(w), true);
  }

  /** A handler list without SYS and without repeats registers cleanly and resolves by the table. */
  lemma RegistrationOf(ops: seq<Op>, w: u16)
    requires Sys !in ops
    requires forall i, j :: 0 <= i < j < |ops| ==> ops[i] != ops[j]
    ensures forall i :: 0 <= i < |ops| ==> Build(Entries(ops)).results[i]
    ensures Lookup(Build(Entries(ops)).tree, w) ==
              (if Decode(w).Some? && Decode(w).value in ops then Decode(w) else None)
  {
    BuildHolds(ops);
    var t := Build(Entries(ops)).tree;
    if Lookup(t, w).Some? {
      FoundIsListed(t, ops, w);
    } else if Decode(w).Some? && Decode(w).value in ops {
      ListedIsFound(t, ops, w);
    }
  }

  /** Encodings of two handlers other than SYS never mix exact and operand slots under a shared prefix. */
  lemma CompatibleEncodings(a: Op, b: Op)
    requires a != Sys && b != Sys
    ensures Compatible(EncodingOf(a), EncodingOf(b))
  {
    var p, q := EncodingOf(a), EncodingOf(b);
    ShapeFollowsFamily(a);
    ShapeFollowsFamily(b);
    forall k | 0 <= k < 4 && p[..k] == q[..k]
      ensures p[k].Fixed? <==> q[k].Fixed?
    {
      assert Shape(p)[k] == p[k].Fixed? && Shape(q)[k] == q[k].Fixed?;
      if k > 0 {
        assert p[0] == p[..k][0] == q[..k][0] == q[0];
      }
    }
  }

  /** The position of a handler in the header's declaration order. */
  function Rank(op: Op): nat
  {
    match op
    case Cls => 0 case Ret => 1 case Sys => 2 case Jp => 3 case Call => 4
    case SeVxKk => 5 case SneVxKk => 6 case SeVxVy => 7 case LdVxKk => 8 case AddVxKk => 9
    case LdVxVy => 10 case OrVxVy => 11 case AndVxVy => 12 case XorVxVy => 13 case AddVxVy => 14
    case SubVxVy => 15 case ShrVxVy => 16 case SubnVxVy => 17 case ShlVxVy => 18 case SneVxVy => 19
    case LdINnn => 20 case JpV0Nnn => 21 case RndVxKk => 22 case DrwVxVyN => 23 case SkpVx => 24
    case SknpVx => 25 case LdVxDt => 26 case LdVxK => 27 case LdDtVx => 28 case LdStVx => 29
    case AddIVx => 30 case LdFVx => 31 case LdBVx => 32 case LdMemVx => 33 case LdVxMem => 34
  }

  lemma LegacyRanks()
    ensures forall i :: 0 <= i < |LegacyRegistered| ==> Rank(LegacyRegistered[i]) == if i == 0 then 1 else i + 2
  {
    forall i | 0 <= i < |LegacyRegistered|
      ensures Rank(LegacyRegistered[i]) == if i == 0 then 1 else i + 2
    {
    }
  }

  lemma LateRanks()
    ensures forall i :: 0 <= i < |LateRegistered| ==> Rank(LateRegistered[i]) == i + 23
  {
    forall i | 0 <= i < |LateRegistered|
      ensures Rank(LateRegistered[i]) == i + 23
    {
    }
  }

  /** The current list is the declaration order with SYS, at rank 2, skipped. */
  lemma RegisteredProper()
    ensures Sys !in Registered
    ensures forall i, j :: 0 <= i < j < |Registered| ==> Registered[i] != Registered[j]
  {
    LegacyRanks();
    LateRanks();
    forall i | 0 <= i < |Registered|
      ensures Rank(Registered[i]) == if i < 2 then i else i + 1
    {
      if 1 <= i < 22 {
        assert Registered[i] == LegacyRegistered[i - 1];
      } else if i >= 22 {
        assert Registered[i] == LateRegistered[i - 22];
      }
    }
  }

  /** The older list is the declaration order from RET (rank 1) to RND, SYS skipped. */
  lemma LegacyRegisteredProper()
    ensures Sys !in LegacyRegistered
    ensures forall i, j :: 0 <= i < j < |LegacyRegistered| ==> LegacyRegistered[i] != LegacyRegistered[j]
  {
    LegacyRanks();
  }

  /** The current tree: all 34 registrations succeed and every word resolves to the handler the
      opcode table names for it, and to nothing when the table names none. */
  lemma OpTreeResolvesByTable(w: u16)
    ensures forall i :: 0 <= i < |Registered| ==> Build(Entries(Registered)).results[i]
    ensures Lookup(OpTree(), w) == Decode(w)
  {
    RegisteredProper();
    RegistrationOf(Registered, w);
    if Decode(w).Some? {
      DecodeCoversRegistered(w);
    }
  }

  lemma DecodeCoversRegistered(w: u16)
    requires Decode(w).Some?
    ensures Decode(w).value in Registered
  {
  }

  /** Every word matching a registered encoding resolves to that handler. */
  lemma MatchingWordResolves(op: Op, w: u16)
    requires op in Registered && Matches(EncodingOf(op), Nibbles(w))
    ensures Lookup(OpTree(), w) == Some(op)
  {
    DecodeAgrees(op, w);
    OpTreeResolvesByTable(w);
  }

  /** The older tree: the 21 registrations succeed, words of those handlers resolve as the table
      says, and every other word (CLS, DRW, the Ex and Fx families) is unrecognised. */
  lemma LegacyTreeResolves(w: u16)
    ensures forall i :: 0 <= i < |LegacyRegistered| ==> Build(Entries(LegacyRegistered)).results[i]
    ensures Lookup(LegacyOpTree(), w) ==
              (if Decode(w).Some? && Decode(w).value in LegacyRegistered then Decode(w) else None)
    ensures Nibbles(w)[0] >= 0xD || w == 0x00E0 ==> Lookup(LegacyOpTree(), w) == None
  {
    LegacyRegisteredProper();
    RegistrationOf(LegacyRegistered, w);
    if Nibbles(w)[0] >= 0xD || w == 0x00E0 {
      LegacyExcludes(w);
    }
  }

  /** Handlers the older tree never registers. */
  predicate Unregistered(op: Op)
  {
    op.Cls? || op.Sys? || op.DrwVxVyN? || op.SkpVx? || op.SknpVx? || op.LdVxDt? || op.LdVxK?
    || op.LdDtVx? || op.LdStVx? || op.AddIVx? || op.LdFVx? || op.LdBVx? || op.LdMemVx? || op.LdVxMem?
  }

  lemma UnregisteredNotLegacy(op: Op)
    requires Unregistered(op)
    ensures op !in LegacyRegistered
  {
  }

  lemma LateFamiliesUnregistered(w: u16)
    requires Nibbles(w)[0] >= 0xD || w == 0x00E0
    ensures Decode(w).Some? ==> Unregistered(Decode(w).value)
  {
  }

  lemma LegacyExcludes(w: u16)
    requires Nibbles(w)[0] >= 0xD || w == 0x00E0
    ensures !(Decode(w).Some? && Decode(w).value in LegacyRegistered)
  {
    LateFamiliesUnregistered(w);
    if Decode(w).Some? {
      UnregisteredNotLegacy(Decode(w).value);
    }
  }

  /**
   The current registrations with SHL declared under SHR's pattern 8xy6 instead of 8xyE. SHL
   comes right after SUBN, at position 17 of the list.
   */
  function MisencodedShlEntries(): (es: seq<(seq<Slot>, Op)>)
    ensures |es| == |Registered|
  {
    Entries(Registered)[17 := (EncodingOf(ShrVxVy), ShlVxVy)]
  }

  /**
   With SHL under 8xy6 its registration is refused, since SHR already holds that leaf; the tree
   is then exactly the one built without SHL, so every 8xyE word is unrecognised (and halts the
   interpreter) while every other word still resolves by the opcode table.
   */
  lemma MisencodedShlUnregistered(w: u16)
    ensures !Build(MisencodedShlEntries()).results[17]
    ensures Lookup(Build(MisencodedShlEntries()).tree, w) ==
              (if Decode(w) == Some(ShlVxVy) then None else Decode(w))
  {
    var rest := Without(Registered, 17);
    MisencodedShlTree();
    RegistrationOf(rest, w);
    if Decode(w).Some? {
      DecodeCoversRegistered(w);
    }
  }

  /** SHL is refused, and the tree is the one built from the current list without SHL. */
  lemma MisencodedShlTree()
    ensures !Build(MisencodedShlEntries()).results[17]
    ensures Build(MisencodedShlEntries()).tree == Build(Entries(Without(Registered, 17))).tree
    ensures Sys !in Without(Registered, 17) && ShlVxVy !in Without(Registered, 17)
    ensures forall a, b :: 0 <= a < b < |Without(Registered, 17)| ==>
              Without(Registered, 17)[a] != Without(Registered, 17)[b]
    ensures forall op :: op in Registered && op != ShlVxVy ==> op in Without(Registered, 17)
  {
    RegisteredProper();
    ShlAfterShr();
    ReencodedRefused(Registered, 15, 17);
    WithoutProper(Registered, 17);
  }

  lemma ShlAfterShr()
    ensures |Registered| == 34 && Registered[15] == ShrVxVy && Registered[17] == ShlVxVy
  {
  }

  /**
   A handler re-declared under the encoding of one registered before it: its registration is
   refused, and the tree is the one built from the list without it.
   */
  lemma ReencodedRefused(ops: seq<Op>, j: nat, k: nat)
    requires Sys !in ops
    requires forall a, b :: 0 <= a < b < |ops| ==> ops[a] != ops[b]
    requires j < k < |ops|
    ensures var es := Entries(ops)[k := (EncodingOf(ops[j]), ops[k])];
      !Build(es).results[k] && Build(es).tree == Build(Entries(Without(ops, k))).tree
  {
    var es := Entries(ops)[k := (EncodingOf(ops[j]), ops[k])];
    ReencodedEntries(ops, j, k);
    BuildHolds(ops[..k]);
    assert ops[..k][j] == ops[j];
    TakenEntryRefused(es, k);
  }

  lemma ReencodedEntries(ops: seq<Op>, j: nat, k: nat)
    requires j < k < |ops|
    ensures var es := Entries(ops)[k := (EncodingOf(ops[j]), ops[k])];
      && (forall i :: 0 <= i < |es| ==> |es[i].0| == 4)
      && es[..k] == Entries(ops[..k]) && es[k].0 == EncodingOf(ops[j])
      && Without(es, k) == Entries(Without(ops, k))
  {
    var es := Entries(ops)[k := (EncodingOf(ops[j]), ops[k])];
    assert es[..k] == Entries(ops[..k]);
    assert Without(es, k) == Entries(Without(ops, k));
  }

  /** Taking a handler out of a list without SYS and repeats keeps it so, and keeps every other handler. */
  lemma WithoutProper(ops: seq<Op>, k: nat)
    requires Sys !in ops
    requires forall a, b :: 0 <= a < b < |ops| ==> ops[a] != ops[b]
    requires k < |ops|
    ensures Sys !in Without(ops, k) && ops[k] !in Without(ops, k)
    ensures forall a, b :: 0 <= a < b < |Without(ops, k)| ==> Without(ops, k)[a] != Without(ops, k)[b]
    ensures forall op :: op in ops && op != ops[k] ==> op in Without(ops, k)
  {
    var rest := Without(ops, k);
    forall op | op in ops && op != ops[k]
      ensures op in rest
    {
      var m :| 0 <= m < |ops| && ops[m] == op;
      assert rest[if m < k then m else m - 1] == op;
    }
  }

  /** The word 801E, SHL V0, V1, is then not found. */
  lemma MisencodedShlDropsShl()
    ensures Decode(0x801E) == Some(ShlVxVy)
    ensures Lookup(Build(MisencodedShlEntries()).tree, 0x801E) == None
  {
    ShlWord();
    MisencodedShlUnregistered(0x801E);
  }

  lemma ShlWord()
    ensures Decode(0x801E) == Some(ShlVxVy)
  {
    assert Nibbles(0x801E) == [8, 0, 1, 0xE];
  }

  /**
   Why SYS stays unregistered: a tree holding CLS, RET and SYS has, under the root's 0, both the
   exact child 0 and the operand child. Lookup of 0x0012 takes the exact 0, finds neither 1 nor
   an operand below it, and fails without backtracking, although the word matches SYS.
   */
  lemma SysBreaksGreedyLookup()
    ensures Build(Entries([Cls, Ret, Sys])) == Built(WithSys(), [true, true, true])
    ensures !Compatible(EncodingOf(Sys), EncodingOf(Cls))
    ensures At(WithSys(), EncodingOf(Cls)) == Some(Cls)
    ensures At(WithSys(), EncodingOf(Ret)) == Some(Ret)
    ensures At(WithSys(), EncodingOf(Sys)) == Some(Sys)
    ensures Matches(EncodingOf(Sys), Nibbles(0x0012)) && Lookup(WithSys(), 0x0012) == None
    ensures Lookup(WithSys(), 0x0123) == Some(Sys)
  {
    var p, q := EncodingOf(Sys), EncodingOf(Cls);
    assert p[..1] == q[..1];
    WithSysBuilt();
    WithSysHolds();
    WithSysLookups();
  }

  lemma WithSysHolds()
    ensures At(WithSys(), EncodingOf(Cls)) == Some(Cls)
    ensures At(WithSys(), EncodingOf(Ret)) == Some(Ret)
    ensures At(WithSys(), EncodingOf(Sys)) == Some(Sys)
  {
  }

  lemma WithSysLookups()
    ensures Matches(EncodingOf(Sys), Nibbles(0x0012)) && Lookup(WithSys(), 0x0012) == None
    ensures Lookup(WithSys(), 0x0123) == Some(Sys)
  {
    assert Nibbles(0x0012) == [0, 0, 1, 2];
    var below := WithSys().kids[Fixed(0)];
    var zero := below.kids[Fixed(0)];
    assert Resolve(zero, [1, 2], false) == None;
    assert Nibbles(0x0123) == [0, 1, 2, 3];
    var ops := below.kids[Operand];
    assert Resolve(ops, [2, 3], false) == Some(Sys);
    assert Resolve(below, [1, 2, 3], false) == Resolve(ops, [2, 3], false);
  }

  /**
   Registering CLS, RET and SYS in this order, as the current setup_op_handlers would with its
   SYS line restored: every registration succeeds and the tree is WithSys, one insertion at a time.
   */
  lemma WithSysBuilt()
    ensures Build(Entries([Cls, Ret, Sys])) == Built(WithSys(), [true, true, true])
  {
    var e0, e1, e2 := (EncodingOf(Cls), Cls), (EncodingOf(Ret), Ret), (EncodingOf(Sys), Sys);
    assert Entries([Cls, Ret, Sys]) == [e0, e1, e2];
    BuildThree(e0, e1, e2);
    InsertCls();
    InsertRet();
    InsertSys();
  }

  /** CLS alone: the first registration creates the whole 0-0-E-0 path. */
  lemma InsertCls()
    ensures Insert(Node(map[]), EncodingOf(Cls), Cls) == Inserted(ClsTree(), true)
  {
  }

  /** RET shares CLS's first three levels and adds a sibling leaf under E. */
  lemma InsertRet()
    ensures Insert(ClsTree(), EncodingOf(Ret), Ret) == Inserted(ClsRetTree(), true)
  {
    RetBelowRoot();
    assert Shaped(ClsTree(), 4);
    InsertStep(ClsTree(), Fixed(0), [Fixed(0), Fixed(0xE), Fixed(0xE)], Ret);
    assert EncodingOf(Ret) == [Fixed(0)] + [Fixed(0), Fixed(0xE), Fixed(0xE)];
    assert ClsTree().kids[Fixed(0) := ClsRetTree().kids[Fixed(0)]] == ClsRetTree().kids;
  }

  /** RET's insertion one level down, then two, then at the leaves: each reuses CLS's node. */
  lemma RetBelowRoot()
    ensures Shaped(ClsTree().kids[Fixed(0)], 3)
    ensures Insert(ClsTree().kids[Fixed(0)], [Fixed(0), Fixed(0xE), Fixed(0xE)], Ret) ==
              Inserted(ClsRetTree().kids[Fixed(0)], true)
  {
    var t := ClsTree().kids[Fixed(0)];
    assert Shaped(t, 3);
    RetTwoBelowRoot();
    InsertStep(t, Fixed(0), [Fixed(0xE), Fixed(0xE)], Ret);
    assert t.kids[Fixed(0) := ClsRetTree().kids[Fixed(0)].kids[Fixed(0)]] == ClsRetTree().kids[Fixed(0)].kids;
  }

  lemma RetTwoBelowRoot()
    ensures Shaped(ClsTree().kids[Fixed(0)].kids[Fixed(0)], 2)
    ensures Insert(ClsTree().kids[Fixed(0)].kids[Fixed(0)], [Fixed(0xE), Fixed(0xE)], Ret) ==
              Inserted(ClsRetTree().kids[Fixed(0)].kids[Fixed(0)], true)
  {
    var t := ClsTree().kids[Fixed(0)].kids[Fixed(0)];
    assert Shaped(t, 2);
    var leaves := Node(map[Fixed(0) := Leaf(Cls), Fixed(0xE) := Leaf(Ret)]);
    assert Insert(t.kids[Fixed(0xE)], [Fixed(0xE)], Ret) == Inserted(leaves, true);
    InsertStep(t, Fixed(0xE), [Fixed(0xE)], Ret);
    assert t.kids[Fixed(0xE) := leaves] == map[Fixed(0xE) := leaves];
  }

  /** SYS leaves the root's 0 through its operand child, which does not exist yet: it succeeds. */
  lemma InsertSys()
    ensures Insert(ClsRetTree(), EncodingOf(Sys), Sys) == Inserted(WithSys(), true)
  {
  }

  function ClsTree(): Trie<Op>
  {
    Node(map[Fixed(0) := Node(map[Fixed(0) := Node(map[Fixed(0xE) := Node(map[Fixed(0) := Leaf(Cls)])])])])
  }

  function ClsRetTree(): Trie<Op>
  {
    Node(map[Fixed(0) := Node(map[Fixed(0) := Node(map[Fixed(0xE) :=
      Node(map[Fixed(0) := Leaf(Cls), Fixed(0xE) := Leaf(Ret)])])])])
  }

  /** The four-level tree holding CLS, RET and SYS under their encodings, and nothing else. */
  function WithSys(): Trie<Op>
  {
    Node(map[Fixed(0) := Node(map[
      Fixed(0) := Node(map[Fixed(0xE) := Node(map[Fixed(0) := Leaf(Cls), Fixed(0xE) := Leaf(Ret)])]),
      Operand := Node(map[Operand := Node(map[Operand := Leaf(Sys)])])])])
  }
}
