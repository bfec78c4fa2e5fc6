/**
 * The repeatable sections of the form. Each of the four kinds has a counter
 * that only grows and a container of blocks in the order they were added.
 * "Add" bumps the kind's counter and appends a block whose element ids end
 * in the new counter value; "Remove" detaches that one block.
 */
module Registry {
  import opened Wrappers
  import opened Digits

  datatype Kind = Experience | Education | Reference | Language

  /** The field names of a kind's inputs; an input's element id is its field name followed by the block number. */
  function FieldNames(k: Kind): seq<string>
  {
    match k
    case Experience => ["jobTitle", "company", "location", "expStart", "expEnd", "responsibilities"]
    case Education => ["institution", "degree", "field", "yearStart", "yearEnd"]
    case Reference => ["refName", "refCompany", "refPosition", "refPhone", "refEmail"]
    case Language => ["langName", "langLevel"]
  }

  /** Every field name ends in a letter, so a block number can follow it unambiguously. */
  lemma FieldNamesArePrefixes(k: Kind)
    ensures forall name :: name in FieldNames(k) ==> IdPrefix(name)
  {
  }

  /** The value an input holds when its block is created: empty, except the fluency select, which shows its first option. */
  function InitialValue(name: string): string
  {
    if name == "langLevel" then "Fluent" else ""
  }

  /** The heading of a block in the form; a language block has none. */
  function Heading(k: Kind, n: nat): (h: Option<string>)
    ensures k == Language <==> h.None?
  {
    match k
    case Experience => Some("Work Experience " + NatToString(n))
    case Education => Some("Higher Education " + NatToString(n))
    case Reference => Some("Reference " + NatToString(n))
    case Language => None
  }

  /** Different numbers give different headings: the heading names the block's number. */
  lemma HeadingInjective(k: Kind, m: nat, n: nat)
    requires k != Language && Heading(k, m) == Heading(k, n)
    ensures m == n
  {
    var prefix := match k
      case Experience => "Work Experience "
      case Education => "Higher Education "
      case Reference => "Reference "
      case Language => "";
    assert Heading(k, m).value == prefix + NatToString(m);
    assert Heading(k, n).value == prefix + NatToString(n);
    assert NatToString(m) == (prefix + NatToString(m))[|prefix|..];
    assert NatToString(n) == (prefix + NatToString(n))[|prefix|..];
    NatToStringInjective(m, n);
  }

  /** One block of the form: its creation number, its heading and the value of each input, by element id. */
  datatype Block = Block(id: nat, heading: Option<string>, inputs: map<string, string>)

  /** The element ids of the inputs of block number `n` of kind `k`. */
  function ElementIds(k: Kind, n: nat): set<string>
  {
    set name | name in FieldNames(k) :: ElementId(name, n)
  }

  /** A block as the add handler lays it out: the heading and one input per field, all ids ending in its number. */
  predicate WellFormed(k: Kind, b: Block)
  {
    b.heading == Heading(k, b.id) && b.inputs.Keys == ElementIds(k, b.id)
  }

  function InitialInputs(names: seq<string>, n: nat): (m: map<string, string>)
    ensures m.Keys == set name | name in names :: ElementId(name, n)
  {
    if names == [] then map[]
    else
      var rest := InitialInputs(names[1..], n);
      assert (set name | name in names :: ElementId(name, n))
          == (set name | name in names[1..] :: ElementId(name, n)) + {ElementId(names[0], n)} by {
        assert forall name :: name in names <==> name == names[0] || name in names[1..];
      }
      rest[ElementId(names[0], n) := InitialValue(names[0])]
  }

  /** Each input laid out from `names` starts with its field's initial value. */
  lemma {:induction false} InitialInputsValues(names: seq<string>, n: nat)
    requires forall name :: name in names ==> IdPrefix(name)
    ensures forall name :: name in names ==> InitialInputs(names, n)[ElementId(name, n)] == InitialValue(name)
  {
    if names != [] {
      InitialInputsValues(names[1..], n);
      forall name | name in names
        ensures InitialInputs(names, n)[ElementId(name, n)] == InitialValue(name)
      {
        if name != names[0] {
          assert name in names[1..];
          if ElementId(name, n) == ElementId(names[0], n) {
            ElementIdInjective(name, n, names[0], n);
          }
        }
      }
    }
  }

  /** The block the add handler creates as number `n`. */
  function NewBlock(k: Kind, n: nat): (b: Block)
    ensures b.id == n && WellFormed(k, b)
  {
    Block(n, Heading(k, n), InitialInputs(FieldNames(k), n))
  }

  /** A new block starts with every input empty, the fluency select on "Fluent". */
  lemma NewBlockValues(k: Kind, n: nat)
    ensures forall name :: name in FieldNames(k) ==> NewBlock(k, n).inputs[ElementId(name, n)] == InitialValue(name)
  {
    FieldNamesArePrefixes(k);
    InitialInputsValues(FieldNames(k), n);
  }

  /** Creation numbers grow along a container, so no two blocks share one. */
  predicate IdsIncreasing(bs: seq<Block>)
  {
    forall i, j :: 0 <= i < j < |bs| ==> bs[i].id < bs[j].id
  }

  /** The state of one kind: the blocks in order, numbered from 1 up to the counter, each well formed. */
  predicate KindValid(k: Kind, count: nat, bs: seq<Block>)
  {
    && IdsIncreasing(bs)
    && (forall i :: 0 <= i < |bs| ==> 1 <= bs[i].id <= count && WellFormed(k, bs[i]))
  }

  /** The container once the block numbered `id` is detached; detaching an absent block changes nothing. */
  function Detach(bs: seq<Block>, id: nat): (r: seq<Block>)
    ensures |r| <= |bs|
  {
    if bs == [] then []
    else if bs[0].id == id then Detach(bs[1..], id)
    else [bs[0]] + Detach(bs[1..], id)
  }

  /** Detaching keeps exactly the blocks with other numbers and adds none. */
  lemma {:induction false} DetachMembers(bs: seq<Block>, id: nat)
    ensures forall b :: b in Detach(bs, id) <==> b in bs && b.id != id
  {
    if bs != [] {
      DetachMembers(bs[1..], id);
      assert forall b :: b in bs <==> b == bs[0] || b in bs[1..];
    }
  }

  /** Block `b` once the user types `value` into its input `elementId`, if it is block `id` and has that input. */
  function EditBlock(b: Block, id: nat, elementId: string, value: string): (r: Block)
    ensures r.id == b.id && r.heading == b.heading && r.inputs.Keys == b.inputs.Keys
    ensures b.id == id && elementId in b.inputs ==> r.inputs[elementId] == value
    ensures forall e :: e in b.inputs && (b.id != id || e != elementId) ==> r.inputs[e] == b.inputs[e]
  {
    if b.id == id && elementId in b.inputs then b.(inputs := b.inputs[elementId := value]) else b
  }

  /** The container once the user types `value` into the input `elementId` of block `id`. */
  function EditInput(bs: seq<Block>, id: nat, elementId: string, value: string): (r: seq<Block>)
    ensures |r| == |bs|
    ensures forall i :: 0 <= i < |bs| ==> r[i].id == bs[i].id && r[i].heading == bs[i].heading
    ensures forall i :: 0 <= i < |bs| ==> r[i].inputs.Keys == bs[i].inputs.Keys
    ensures forall i :: 0 <= i < |bs| && bs[i].id == id && elementId in bs[i].inputs ==> r[i].inputs[elementId] == value
    ensures forall i :: 0 <= i < |bs| ==> forall e :: e in bs[i].inputs && (bs[i].id != id || e != elementId) ==> r[i].inputs[e] == bs[i].inputs[e]
  {
    seq(|bs|, i requires 0 <= i < |bs| => EditBlock(bs[i], id, elementId, value))
  }

  /** Adding block `count + 1` keeps a kind valid under the bumped counter. */
  lemma AppendKeepsValid(k: Kind, count: nat, bs: seq<Block>)
    requires KindValid(k, count, bs)
    ensures KindValid(k, count + 1, bs + [NewBlock(k, count + 1)])
  {
  }

  /** Detaching keeps the others in their relative order, which keeps the numbers increasing. */
  lemma {:induction false} DetachKeepsIncreasing(bs: seq<Block>, id: nat)
    requires IdsIncreasing(bs)
    ensures IdsIncreasing(Detach(bs, id))
  {
    if bs != [] {
      DetachKeepsIncreasing(bs[1..], id);
      DetachMembers(bs[1..], id);
      var rest := Detach(bs[1..], id);
      if bs[0].id != id {
        forall j | 0 <= j < |rest| ensures bs[0].id < rest[j].id {
          assert rest[j] in bs[1..];
        }
      }
    }
  }

  /** Detaching keeps a kind valid, under the same counter. */
  lemma DetachKeepsValid(k: Kind, count: nat, bs: seq<Block>, id: nat)
    requires KindValid(k, count, bs)
    ensures KindValid(k, count, Detach(bs, id))
  {
    DetachKeepsIncreasing(bs, id);
    DetachMembers(bs, id);
    var r := Detach(bs, id);
    forall i | 0 <= i < |r| ensures 1 <= r[i].id <= count && WellFormed(k, r[i]) {
      assert r[i] in bs;
    }
  }

  /** Detaching a number no block carries leaves the container as it is. */
  lemma {:induction false} DetachAbsent(bs: seq<Block>, id: nat)
    requires forall i :: 0 <= i < |bs| ==> bs[i].id != id
    ensures Detach(bs, id) == bs
  {
    if bs != [] {
      DetachAbsent(bs[1..], id);
      assert bs == [bs[0]] + bs[1..];
    }
  }

  /** Removing block `id` takes out exactly that block: the others keep their order and contents. */
  lemma {:induction false} DetachSplice(bs: seq<Block>, i: nat)
    requires IdsIncreasing(bs) && i < |bs|
    ensures Detach(bs, bs[i].id) == bs[..i] + bs[i + 1..]
  {
    var id, rest := bs[i].id, bs[1..];
    assert IdsIncreasing(rest) by {
      forall a, b | 0 <= a < b < |rest| ensures rest[a].id < rest[b].id {
        assert rest[a] == bs[a + 1] && rest[b] == bs[b + 1];
      }
    }
    if i == 0 {
      forall j | 0 <= j < |rest| ensures rest[j].id != id {
        assert rest[j] == bs[j + 1];
      }
      DetachAbsent(rest, id);
      assert bs[..0] + bs[1..] == rest;
    } else {
      assert bs[0].id < id;
      DetachSplice(rest, i - 1);
      assert rest[i - 1] == bs[i];
      assert Detach(bs, id) == [bs[0]] + Detach(rest, id);
      assert rest[..i - 1] == bs[1..i];
      assert rest[i..] == bs[i + 1..];
      assert bs[..i] == [bs[0]] + bs[1..i];
    }
  }

  /** Removing twice is removing once. */
  lemma DetachIdempotent(bs: seq<Block>, id: nat)
    ensures Detach(Detach(bs, id), id) == Detach(bs, id)
  {
    var r := Detach(bs, id);
    DetachMembers(bs, id);
    forall j | 0 <= j < |r| ensures r[j].id != id {
      assert r[j] in r;
    }
    DetachAbsent(r, id);
  }

  /** Typing into an input keeps a kind valid. */
  lemma EditKeepsValid(k: Kind, count: nat, bs: seq<Block>, id: nat, elementId: string, value: string)
    requires KindValid(k, count, bs)
    ensures KindValid(k, count, EditInput(bs, id, elementId, value))
  {
  }

  /**
   * The registry: the four counters of the page and its four block
   * containers. Counters start at zero and are never decremented.
   */
  class SectionRegistry {
    var expCount: nat
    var eduCount: nat
    var refCount: nat
    var langCount: nat
    var experience: seq<Block>
    var education: seq<Block>
    var references: seq<Block>
    var languages: seq<Block>

    function Count(k: Kind): nat
      reads this
    {
      match k
      case Experience => expCount
      case Education => eduCount
      case Reference => refCount
      case Language => langCount
    }

    function Blocks(k: Kind): seq<Block>
      reads this
    {
      match k
      case Experience => experience
      case Education => education
      case Reference => references
      case Language => languages
    }

    ghost predicate Valid()
      reads this
    {
      && KindValid(Experience, expCount, experience)
      && KindValid(Education, eduCount, education)
      && KindValid(Reference, refCount, references)
      && KindValid(Language, langCount, languages)
    }

    constructor ()
      ensures Valid()
      ensures forall k :: Count(k) == 0 && Blocks(k) == []
    {
      expCount, eduCount, refCount, langCount := 0, 0, 0, 0;
      experience, education, references, languages := [], [], [], [];
    }

    /** The add button of kind `k`: bump the counter and append a block carrying the new number. */
    method Add(k: Kind) returns (id: nat)
      requires Valid()
      modifies this
      ensures Valid()
      ensures id == old(Count(k)) + 1 && Count(k) == id
      ensures Blocks(k) == old(Blocks(k)) + [NewBlock(k, id)]
      ensures forall k' :: k' != k ==> Count(k') == old(Count(k')) && Blocks(k') == old(Blocks(k'))
    {
      id := Count(k) + 1;
      AppendKeepsValid(k, Count(k), Blocks(k));
      SetKind(k, id, Blocks(k) + [NewBlock(k, id)]);
    }

    /** Installs a new counter and container for kind `k`; the other kinds are untouched. */
    method SetKind(k: Kind, count: nat, bs: seq<Block>)
      requires Valid() && KindValid(k, count, bs)
      modifies this
      ensures Valid()
      ensures Count(k) == count && Blocks(k) == bs
      ensures forall k' :: k' != k ==> Count(k') == old(Count(k')) && Blocks(k') == old(Blocks(k'))
    {
      match k
      case Experience => expCount, experience := count, bs;
      case Education => eduCount, education := count, bs;
      case Reference => refCount, references := count, bs;
      case Language => langCount, languages := count, bs;
    }

    /** The remove button of block `id` of kind `k`: detach that block; no counter changes. */
    method Remove(k: Kind, id: nat)
      requires Valid()
      modifies this
      ensures Valid()
      ensures Blocks(k) == Detach(old(Blocks(k)), id)
      ensures forall k' :: Count(k') == old(Count(k'))
      ensures forall k' :: k' != k ==> Blocks(k') == old(Blocks(k'))
    {
      var r := Detach(Blocks(k), id);
      DetachKeepsValid(k, Count(k), Blocks(k), id);
      SetKind(k, Count(k), r);
    }

    /** The user types `value` into the `name` input of block `id` of kind `k`. */
    method Edit(k: Kind, id: nat, name: string, value: string)
      requires Valid()
      modifies this
      ensures Valid()
      ensures Blocks(k) == EditInput(old(Blocks(k)), id, ElementId(name, id), value)
      ensures forall k' :: Count(k') == old(Count(k'))
      ensures forall k' :: k' != k ==> Blocks(k') == old(Blocks(k'))
    {
      var e := ElementId(name, id);
      var r := EditInput(Blocks(k), id, e, value);
      EditKeepsValid(k, Count(k), Blocks(k), id, e, value);
      SetKind(k, Count(k), r);
    }
  }
}
