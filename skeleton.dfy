/** The structural summary of parsed JSON or YAML data that is shown to the
    model instead of the full file: objects keep their keys, arrays keep at
    most their first element, and every scalar becomes the name of its type
    in angle brackets. */
module Skeleton {

  /** A parsed JSON/YAML value. An object's members are kept in insertion
      order, as a Python dict keeps them. */
  datatype Value =
    | Object(members: seq<Member>)
    | Array(items: seq<Value>)
    | Str(s: string)
    | Int(i: int)
    | Float(text: string)
    | Bool(b: bool)
    | Null

  /** One `key: value` entry of an object. */
  datatype Member = Member(key: string, value: Value)

  /** `type(data).__name__` for a scalar. */
  function TypeName(v: Value): string
    requires !v.Object? && !v.Array?
  {
    match v
    case Str(_) => "str"
    case Int(_) => "int"
    case Float(_) => "float"
    case Bool(_) => "bool"
    case Null => "NoneType"
  }

  /** `f"<{type(data).__name__}>"`. */
  function Placeholder(v: Value): Value
    requires !v.Object? && !v.Array?
  {
    Str("<" + TypeName(v) + ">")
  }

  /** `skeletonize_data`. */
  function Skeletonize(v: Value): Value
    decreases v, 1
  {
    match v
    case Object(members) => Object(SkeletonizeMembers(members))
    case Array(items) => if items == [] then Array([]) else Array([Skeletonize(items[0])])
    case _ => Placeholder(v)
  }

  /** `{k: skeletonize_data(v) for k, v in data.items()}`. */
  function SkeletonizeMembers(members: seq<Member>): (r: seq<Member>)
    ensures |r| == |members|
    ensures forall k :: 0 <= k < |r| ==> r[k].key == members[k].key
    decreases members, 0
  {
    if members == [] then []
    else
      var m := members[0];
      assert m in members;
      [Member(m.key, Skeletonize(m.value))] + SkeletonizeMembers(members[1..])
  }

  /** The keys of an object's members, in order. */
  function Keys(members: seq<Member>): (r: seq<string>)
    ensures |r| == |members|
  {
    if members == [] then [] else [members[0].key] + Keys(members[1..])
  }

  /** A value in skeleton form: arrays hold at most one element, every scalar
      is a type placeholder, and the same holds all the way down. */
  predicate IsSkeleton(v: Value)
    decreases v, 1
  {
    match v
    case Object(members) => MembersAreSkeletons(members)
    case Array(items) => |items| <= 1 && (items == [] || IsSkeleton(items[0]))
    case Str(s) => s in {"<str>", "<int>", "<float>", "<bool>", "<NoneType>"}
    case _ => false
  }

  predicate MembersAreSkeletons(members: seq<Member>)
    decreases members, 0
  {
    members == [] || (IsSkeleton(members[0].value) && MembersAreSkeletons(members[1..]))
  }

  /** The number of nodes of a value. */
  function Size(v: Value): nat
    decreases v, 1
  {
    match v
    case Object(members) => 1 + MembersSize(members)
    case Array(items) => 1 + ItemsSize(items)
    case _ => 1
  }

  function MembersSize(members: seq<Member>): nat
    decreases members, 0
  {
    if members == [] then 0
    else
      var m := members[0];
      assert m in members;
      Size(m.value) + MembersSize(members[1..])
  }

  function ItemsSize(items: seq<Value>): nat
    decreases items, 0
  {
    if items == [] then 0 else Size(items[0]) + ItemsSize(items[1..])
  }

  // ---------------------------------------------------------------------------
  // Properties
  // ---------------------------------------------------------------------------

  /** An object keeps exactly its keys, in order. */
  lemma {:induction false} KeysKept(members: seq<Member>)
    ensures Keys(SkeletonizeMembers(members)) == Keys(members)
    decreases members
  {
    if members != [] {
      KeysKept(members[1..]);
    }
  }

  /** The result is always in skeleton form. */
  lemma {:induction false} SkeletonizeIsSkeleton(v: Value)
    ensures IsSkeleton(Skeletonize(v))
    decreases v, 1
  {
    match v
    case Object(members) => MembersSkeletons(members);
    case Array(items) =>
      if items != [] {
        SkeletonizeIsSkeleton(items[0]);
      }
    case Str(_) => assert "<" + "str" + ">" == "<str>";
    case Int(_) => assert "<" + "int" + ">" == "<int>";
    case Float(_) => assert "<" + "float" + ">" == "<float>";
    case Bool(_) => assert "<" + "bool" + ">" == "<bool>";
    case Null => assert "<" + "NoneType" + ">" == "<NoneType>";
  }

  lemma {:induction false} MembersSkeletons(members: seq<Member>)
    ensures MembersAreSkeletons(SkeletonizeMembers(members))
    decreases members, 0
  {
    if members != [] {
      var m := members[0];
      assert m in members;
      SkeletonizeIsSkeleton(m.value);
      MembersSkeletons(members[1..]);
      assert SkeletonizeMembers(members)[1..] == SkeletonizeMembers(members[1..]);
    }
  }

  /** Two values with the same structure: objects with the same keys in the
      same order, arrays of the same length, and scalars in the same places. */
  predicate SameShape(a: Value, b: Value)
    decreases a, 1
  {
    match a
    case Object(ms) => b.Object? && SameMembersShape(ms, b.members)
    case Array(xs) => b.Array? && SameItemsShape(xs, b.items)
    case _ => !b.Object? && !b.Array?
  }

  predicate SameMembersShape(ms: seq<Member>, ns: seq<Member>)
    decreases ms, 0
  {
    |ms| == |ns| &&
    (ms == [] ||
     (var m := ms[0];
      assert m in ms;
      m.key == ns[0].key && SameShape(m.value, ns[0].value) && SameMembersShape(ms[1..], ns[1..])))
  }

  predicate SameItemsShape(xs: seq<Value>, ys: seq<Value>)
    decreases xs, 0
  {
    |xs| == |ys| && (xs == [] || (SameShape(xs[0], ys[0]) && SameItemsShape(xs[1..], ys[1..])))
  }

  /** Summarising a summary keeps its structure: the keys and the one-element
      arrays stay where they are. Only the placeholders change, since a
      placeholder is itself a string and becomes `"<str>"`. */
  lemma {:induction false} SecondPassKeepsShape(v: Value)
    requires IsSkeleton(v)
    ensures SameShape(Skeletonize(v), v)
    decreases v, 1
  {
    match v
    case Object(members) => MembersKeepShape(members);
    case Array(items) =>
      if items != [] {
        SecondPassKeepsShape(items[0]);
      }
    case Str(_) =>
  }

  lemma {:induction false} MembersKeepShape(members: seq<Member>)
    requires MembersAreSkeletons(members)
    ensures SameMembersShape(SkeletonizeMembers(members), members)
    decreases members, 0
  {
    if members != [] {
      var m := members[0];
      assert m in members;
      SecondPassKeepsShape(m.value);
      MembersKeepShape(members[1..]);
      assert SkeletonizeMembers(members)[1..] == SkeletonizeMembers(members[1..]);
    }
  }

  /** Summarising twice: the structure is that of the first summary. */
  lemma SkeletonizeTwiceKeepsShape(v: Value)
    ensures SameShape(Skeletonize(Skeletonize(v)), Skeletonize(v))
  {
    SkeletonizeIsSkeleton(v);
    SecondPassKeepsShape(Skeletonize(v));
  }

  /** The function is not idempotent: a second pass turns `"<int>"` into
      `"<str>"`. */
  lemma SecondPassRenamesPlaceholders()
    ensures Skeletonize(Int(7)) == Str("<int>")
    ensures Skeletonize(Skeletonize(Int(7))) == Str("<str>")
  {
    assert "<" + "int" + ">" == "<int>";
    assert "<" + "str" + ">" == "<str>";
  }

  /** The summary is never larger than the data. */
  lemma {:induction false} SkeletonizeShrinks(v: Value)
    ensures Size(Skeletonize(v)) <= Size(v)
    decreases v, 1
  {
    match v
    case Object(members) => MembersShrink(members);
    case Array(items) =>
      if items != [] {
        SkeletonizeShrinks(items[0]);
        assert ItemsSize([Skeletonize(items[0])]) == Size(Skeletonize(items[0]));
      }
    case _ =>
  }

  lemma {:induction false} MembersShrink(members: seq<Member>)
    ensures MembersSize(SkeletonizeMembers(members)) <= MembersSize(members)
    decreases members, 0
  {
    if members != [] {
      var m := members[0];
      assert m in members;
      SkeletonizeShrinks(m.value);
      MembersShrink(members[1..]);
      assert SkeletonizeMembers(members)[1..] == SkeletonizeMembers(members[1..]);
    }
  }
}
