/**
 * Which conversion blocks a schema file gets, and in what order. The tree
 * walk yields the enums visited, in order; naming each visited enum gives the
 * plan of (EnumName, Prefix) pairs the rendering loop emits one block for.
 */
module Planning {
  import opened Descriptors
  import opened Naming

  /** An enum the walk visits: declared at file level, or declared in message m. */
  datatype EnumRef = FileEnum(e: EnumDecl) | MessageEnum(m: MessageDecl, e: EnumDecl)

  /** The block parameters of a visited enum. */
  function Params(r: EnumRef, c: Casing): BlockParams
  {
    match r
    case FileEnum(e) => FileEnumParams(e, c)
    case MessageEnum(m, e) => NestedEnumParams(m, e, c)
  }

  // ---------------------------------------------------------------------------
  // The tree walk

  /** The file-level enums, in declaration order. */
  function FileVisits(enums: seq<EnumDecl>): (r: seq<EnumRef>)
    ensures |r| == |enums|
  {
    if enums == [] then [] else [FileEnum(enums[0])] + FileVisits(enums[1..])
  }

  /** The given enums of message m, in declaration order. */
  function EnumVisits(m: MessageDecl, enums: seq<EnumDecl>): (r: seq<EnumRef>)
    ensures |r| == |enums|
  {
    if enums == [] then [] else [MessageEnum(m, enums[0])] + EnumVisits(m, enums[1..])
  }

  /** Number of enums visited in a message: none for a map entry, all of them otherwise. */
  function Contribution(m: MessageDecl): nat
  {
    if IsMapEntry(m) then 0 else |m.enums|
  }

  /** The enums visited in one message; a map-entry message is skipped. */
  function MessageVisits(m: MessageDecl): (r: seq<EnumRef>)
    ensures |r| == Contribution(m)
  {
    if IsMapEntry(m) then [] else EnumVisits(m, m.enums)
  }

  /** Total number of enums visited in the messages. */
  function NestedCount(msgs: seq<MessageDecl>): nat
  {
    if msgs == [] then 0 else Contribution(msgs[0]) + NestedCount(msgs[1..])
  }

  /** The enums visited in the messages, message by message. */
  function MessagesVisits(msgs: seq<MessageDecl>): (r: seq<EnumRef>)
    ensures |r| == NestedCount(msgs)
  {
    if msgs == [] then [] else MessageVisits(msgs[0]) + MessagesVisits(msgs[1..])
  }

  /** Every enum the walk visits in a file: file-level enums first, then the message-nested ones. */
  function Visits(file: SchemaFile): seq<EnumRef>
  {
    FileVisits(file.enums) + MessagesVisits(file.messages)
  }

  /** Position in the walk of enum j of message i. */
  function NestedPosition(file: SchemaFile, i: nat, j: nat): nat
    requires i <= |file.messages|
  {
    |file.enums| + NestedCount(file.messages[..i]) + j
  }

  /** The messages that are not map entries, in their original order. */
  function WithoutMapEntries(msgs: seq<MessageDecl>): (r: seq<MessageDecl>)
    ensures forall m :: m in r <==> m in msgs && !IsMapEntry(m)
  {
    if msgs == [] then []
    else if IsMapEntry(msgs[0]) then WithoutMapEntries(msgs[1..])
    else [msgs[0]] + WithoutMapEntries(msgs[1..])
  }

  // ---------------------------------------------------------------------------
  // Naming the visited enums

  /** The block parameters of each visited enum, in visiting order. */
  function PlanOf(refs: seq<EnumRef>, c: Casing): (r: seq<BlockParams>)
    ensures |r| == |refs|
  {
    if refs == [] then [] else [Params(refs[0], c)] + PlanOf(refs[1..], c)
  }

  /** The plan of a file: one (EnumName, Prefix) pair per visited enum. */
  function Plan(file: SchemaFile, c: Casing): seq<BlockParams>
  {
    PlanOf(Visits(file), c)
  }

  // ---------------------------------------------------------------------------
  // Lemmas about the walk

  /** The k-th file-level visit is the k-th file-level enum. */
  lemma {:induction false} FileVisitsAt(enums: seq<EnumDecl>, k: nat)
    requires k < |enums|
    ensures FileVisits(enums)[k] == FileEnum(enums[k])
  {
    if k > 0 {
      FileVisitsAt(enums[1..], k - 1);
    }
  }

  /** The j-th visit among some enums of message m is the j-th of those enums. */
  lemma {:induction false} EnumVisitsAt(m: MessageDecl, enums: seq<EnumDecl>, j: nat)
    requires j < |enums|
    ensures EnumVisits(m, enums)[j] == MessageEnum(m, enums[j])
  {
    if j > 0 {
      EnumVisitsAt(m, enums[1..], j - 1);
    }
  }

  /** Visiting one more file-level enum appends it. */
  lemma {:induction false} FileVisitsSnoc(enums: seq<EnumDecl>, e: EnumDecl)
    ensures FileVisits(enums + [e]) == FileVisits(enums) + [FileEnum(e)]
  {
    if enums == [] {
      assert enums + [e] == [e];
    } else {
      assert (enums + [e])[1..] == enums[1..] + [e];
      FileVisitsSnoc(enums[1..], e);
    }
  }

  /** Visiting one more enum of message m appends it. */
  lemma {:induction false} EnumVisitsSnoc(m: MessageDecl, enums: seq<EnumDecl>, e: EnumDecl)
    ensures EnumVisits(m, enums + [e]) == EnumVisits(m, enums) + [MessageEnum(m, e)]
  {
    if enums == [] {
      assert enums + [e] == [e];
    } else {
      assert (enums + [e])[1..] == enums[1..] + [e];
      EnumVisitsSnoc(m, enums[1..], e);
    }
  }

  /** Visiting one more message appends the enums visited in it. */
  lemma {:induction false} MessagesVisitsSnoc(msgs: seq<MessageDecl>, m: MessageDecl)
    ensures MessagesVisits(msgs + [m]) == MessagesVisits(msgs) + MessageVisits(m)
  {
    if msgs == [] {
      assert msgs + [m] == [m];
    } else {
      assert (msgs + [m])[1..] == msgs[1..] + [m];
      MessagesVisitsSnoc(msgs[1..], m);
    }
  }

  /** The file-level visits of the first i + 1 enums extend those of the first i by one. */
  lemma FileVisitsStep(enums: seq<EnumDecl>, i: nat)
    requires i < |enums|
    ensures FileVisits(enums[..i + 1]) == FileVisits(enums[..i]) + [FileEnum(enums[i])]
  {
    assert enums[..i + 1] == enums[..i] + [enums[i]];
    FileVisitsSnoc(enums[..i], enums[i]);
  }

  /** The visits of the first j + 1 enums of m extend those of the first j by one. */
  lemma EnumVisitsStep(m: MessageDecl, j: nat)
    requires j < |m.enums|
    ensures EnumVisits(m, m.enums[..j + 1]) == EnumVisits(m, m.enums[..j]) + [MessageEnum(m, m.enums[j])]
  {
    assert m.enums[..j + 1] == m.enums[..j] + [m.enums[j]];
    EnumVisitsSnoc(m, m.enums[..j], m.enums[j]);
  }

  /** The visits of the first i + 1 messages extend those of the first i by message i's. */
  lemma MessagesVisitsStep(msgs: seq<MessageDecl>, i: nat)
    requires i < |msgs|
    ensures MessagesVisits(msgs[..i + 1]) == MessagesVisits(msgs[..i]) + MessageVisits(msgs[i])
  {
    assert msgs[..i + 1] == msgs[..i] + [msgs[i]];
    MessagesVisitsSnoc(msgs[..i], msgs[i]);
  }

  /** The count of the first i messages, i > 0, is the first one's contribution plus that of the next i - 1. */
  lemma NestedCountShift(msgs: seq<MessageDecl>, i: nat)
    requires 0 < i <= |msgs|
    ensures NestedCount(msgs[..i]) == Contribution(msgs[0]) + NestedCount(msgs[1..][..i - 1])
  {
    assert msgs[..i][1..] == msgs[1..][..i - 1];
  }

  /** Enum j of a non-map-entry message i is visited right after the enums of messages 0..i-1. */
  lemma {:induction false} MessagesVisitsAt(msgs: seq<MessageDecl>, i: nat, j: nat)
    requires i < |msgs| && !IsMapEntry(msgs[i]) && j < |msgs[i].enums|
    ensures NestedCount(msgs[..i]) + j < NestedCount(msgs)
    ensures MessagesVisits(msgs)[NestedCount(msgs[..i]) + j] == MessageEnum(msgs[i], msgs[i].enums[j])
  {
    if i == 0 {
      assert msgs[..0] == [];
      EnumVisitsAt(msgs[0], msgs[0].enums, j);
    } else {
      NestedCountShift(msgs, i);
      MessagesVisitsAt(msgs[1..], i - 1, j);
    }
  }

  /** Visit k of the messages is enum j of message i, which is not a map entry. */
  predicate IsNestedOrigin(msgs: seq<MessageDecl>, k: nat, i: nat, j: nat)
    requires k < NestedCount(msgs)
  {
    && i < |msgs| && !IsMapEntry(msgs[i]) && j < |msgs[i].enums|
    && k == NestedCount(msgs[..i]) + j
    && MessagesVisits(msgs)[k] == MessageEnum(msgs[i], msgs[i].enums[j])
  }

  /** Every visit in the messages is one enum of one non-map-entry message, at that enum's position. */
  lemma {:induction false} MessagesVisitsOrigin(msgs: seq<MessageDecl>, k: nat)
    requires k < NestedCount(msgs)
    ensures exists i: nat, j: nat :: IsNestedOrigin(msgs, k, i, j)
  {
    var n := Contribution(msgs[0]);
    if k < n {
      assert msgs[..0] == [];
      EnumVisitsAt(msgs[0], msgs[0].enums, k);
      assert IsNestedOrigin(msgs, k, 0, k);
    } else {
      MessagesVisitsOrigin(msgs[1..], k - n);
      var i: nat, j: nat :| IsNestedOrigin(msgs[1..], k - n, i, j);
      NestedCountShift(msgs, i + 1);
      assert IsNestedOrigin(msgs, k, i + 1, j);
    }
  }

  /** The enums of earlier messages are all visited before those of later ones. */
  lemma {:induction false} NestedCountMonotone(msgs: seq<MessageDecl>, i: nat, i2: nat)
    requires i < i2 <= |msgs|
    ensures NestedCount(msgs[..i]) + Contribution(msgs[i]) <= NestedCount(msgs[..i2])
    decreases i2
  {
    MessagesVisitsStep(msgs, i2 - 1);
    assert NestedCount(msgs[..i2]) == NestedCount(msgs[..i2 - 1]) + Contribution(msgs[i2 - 1]);
    if i2 - 1 > i {
      NestedCountMonotone(msgs, i, i2 - 1);
    }
  }

  /** Removing the map-entry messages leaves the visits unchanged. */
  lemma {:induction false} MessagesVisitsSkipMapEntries(msgs: seq<MessageDecl>)
    ensures MessagesVisits(WithoutMapEntries(msgs)) == MessagesVisits(msgs)
  {
    if msgs != [] {
      MessagesVisitsSkipMapEntries(msgs[1..]);
      if !IsMapEntry(msgs[0]) {
        assert ([msgs[0]] + WithoutMapEntries(msgs[1..]))[1..] == WithoutMapEntries(msgs[1..]);
      }
    }
  }

  /** On one message, the filter keeps it exactly when it is not a map entry. */
  lemma WithoutMapEntriesSingle(m: MessageDecl)
    ensures WithoutMapEntries([m]) == if IsMapEntry(m) then [] else [m]
  {
    assert [m][1..] == [];
  }

  /**
   * Filtering a concatenation filters each part and keeps them in order; with
   * WithoutMapEntriesSingle this makes the filter the order-keeping one.
   */
  lemma {:induction false} WithoutMapEntriesAppend(a: seq<MessageDecl>, b: seq<MessageDecl>)
    ensures WithoutMapEntries(a + b) == WithoutMapEntries(a) + WithoutMapEntries(b)
  {
    if a == [] {
      assert a + b == b;
    } else {
      assert (a + b)[0] == a[0];
      assert (a + b)[1..] == a[1..] + b;
      WithoutMapEntriesAppend(a[1..], b);
    }
  }

  /** No enum is visited in the messages exactly when each is a map entry or declares no enum. */
  lemma {:induction false} MessagesVisitsEmptyIff(msgs: seq<MessageDecl>)
    ensures MessagesVisits(msgs) == [] <==> forall m :: m in msgs ==> IsMapEntry(m) || m.enums == []
  {
    if msgs != [] {
      MessagesVisitsEmptyIff(msgs[1..]);
      assert forall m :: m in msgs <==> m == msgs[0] || m in msgs[1..];
    }
  }

  // ---------------------------------------------------------------------------
  // Lemmas about naming the visits

  /** The k-th pair of the plan names the k-th visited enum. */
  lemma {:induction false} PlanOfAt(refs: seq<EnumRef>, k: nat, c: Casing)
    requires k < |refs|
    ensures PlanOf(refs, c)[k] == Params(refs[k], c)
  {
    if k > 0 {
      PlanOfAt(refs[1..], k - 1, c);
    }
  }

  /** Naming two runs of visits one after the other gives their plans one after the other. */
  lemma {:induction false} PlanOfAppend(a: seq<EnumRef>, b: seq<EnumRef>, c: Casing)
    ensures PlanOf(a + b, c) == PlanOf(a, c) + PlanOf(b, c)
  {
    if a == [] {
      assert a + b == b;
    } else {
      assert (a + b)[1..] == a[1..] + b;
      PlanOfAppend(a[1..], b, c);
    }
  }

  // ---------------------------------------------------------------------------
  // The plan of a whole file

  /** The plan has one pair per file-level enum plus one per enum of each non-map-entry message. */
  lemma PlanLength(file: SchemaFile, c: Casing)
    ensures |Plan(file, c)| == |file.enums| + NestedCount(file.messages)
  {
  }

  /** The k-th file-level enum gets the k-th pair, named by its camel-cased name. */
  lemma PlanFileBlock(file: SchemaFile, k: nat, c: Casing)
    requires k < |file.enums|
    ensures k < |Plan(file, c)|
    ensures Plan(file, c)[k] == BlockParams(c.toCamel(file.enums[k].name), c.toScreamingSnake(file.enums[k].name))
  {
    FileVisitsAt(file.enums, k);
    PlanOfAt(Visits(file), k, c);
  }

  /**
   * Enum j of a non-map-entry message i gets the pair at NestedPosition(file, i, j),
   * after every file-level pair, named by the flattened message name.
   */
  lemma PlanNestedBlock(file: SchemaFile, i: nat, j: nat, c: Casing)
    requires i < |file.messages| && !IsMapEntry(file.messages[i]) && j < |file.messages[i].enums|
    ensures |file.enums| <= NestedPosition(file, i, j) < |Plan(file, c)|
    ensures Plan(file, c)[NestedPosition(file, i, j)]
         == BlockParams(FlattenName(file.messages[i]) + "_" + c.toCamel(file.messages[i].enums[j].name),
                        c.toScreamingSnake(file.messages[i].enums[j].name))
  {
    var k := NestedPosition(file, i, j);
    var m := file.messages[i];
    MessagesVisitsAt(file.messages, i, j);
    assert Visits(file)[k] == MessageEnum(m, m.enums[j]);
    PlanOfAt(Visits(file), k, c);
    assert Plan(file, c)[k] == NestedEnumParams(m, m.enums[j], c);
  }

  /**
   * Every pair of the plan names a file-level enum, or an enum of a message
   * that is not a map entry, and sits at that enum's position.
   */
  lemma PlanBlockOrigin(file: SchemaFile, k: nat, c: Casing)
    requires k < |Plan(file, c)|
    ensures k < |file.enums| ==> Plan(file, c)[k] == FileEnumParams(file.enums[k], c)
    ensures k >= |file.enums| ==>
      exists i: nat, j: nat :: i < |file.messages| && !IsMapEntry(file.messages[i]) && j < |file.messages[i].enums|
        && k == NestedPosition(file, i, j)
        && Plan(file, c)[k] == NestedEnumParams(file.messages[i], file.messages[i].enums[j], c)
  {
    PlanOfAt(Visits(file), k, c);
    var n := |file.enums|;
    if k < n {
      FileVisitsAt(file.enums, k);
    } else {
      MessagesVisitsOrigin(file.messages, k - n);
      var i: nat, j: nat :| IsNestedOrigin(file.messages, k - n, i, j);
      var m := file.messages[i];
      assert k == NestedPosition(file, i, j);
      assert Visits(file)[k] == MessageEnum(m, m.enums[j]);
      assert Plan(file, c)[k] == NestedEnumParams(m, m.enums[j], c);
    }
  }

  /** Nested pairs follow message order, then enum order within a message. */
  lemma NestedBlocksInOrder(file: SchemaFile, i: nat, j: nat, i2: nat, j2: nat)
    requires i < |file.messages| && !IsMapEntry(file.messages[i]) && j < |file.messages[i].enums|
    requires i2 < |file.messages|
    requires i < i2 || (i == i2 && j < j2)
    ensures NestedPosition(file, i, j) < NestedPosition(file, i2, j2)
  {
    if i < i2 {
      NestedCountMonotone(file.messages, i, i2);
    }
  }

  /** A file's plan is the same with its map-entry messages removed. */
  lemma PlanIgnoresMapEntries(file: SchemaFile, c: Casing)
    ensures Plan(file.(messages := WithoutMapEntries(file.messages)), c) == Plan(file, c)
  {
    MessagesVisitsSkipMapEntries(file.messages);
  }

  /** The plan is empty exactly when there are no file-level enums and no enum in a non-map-entry message. */
  lemma PlanEmptyIff(file: SchemaFile, c: Casing)
    ensures Plan(file, c) == [] <==>
      file.enums == [] && forall m :: m in file.messages ==> IsMapEntry(m) || m.enums == []
  {
    MessagesVisitsEmptyIff(file.messages);
  }
}
