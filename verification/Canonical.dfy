/**
 * The order-independent view of a request body (src/middleware/idempotency.ts, canonicalise and
 * hashBody). A JSON object is its members in enumeration order; a Tree is what it means. The SHA-256
 * digest of the serialised canonical body is taken to be injective, so a digest is that body itself.
 */
module Canonical {
  import opened Wrappers

  datatype Json =
    | Null
    | Bool(b: bool)
    | Num(n: real)
    | Str(s: string)
    | Arr(items: Items)
    | Obj(members: Members)

  datatype Items = NoItems | Item(head: Json, tail: Items)

  datatype Members = NoMembers | Member(key: string, value: Json, rest: Members)

  /** A body up to the order of object keys: nested maps and ordered arrays. */
  datatype Tree =
    | TNull
    | TBool(b: bool)
    | TNum(n: real)
    | TStr(s: string)
    | TArr(items: seq<Tree>)
    | TObj(members: map<string, Tree>)

  function Keys(ms: Members): set<string> {
    match ms
    case NoMembers => {}
    case Member(k, _, rest) => {k} + Keys(rest)
  }

  function Denote(v: Json): Tree {
    match v
    case Null => TNull
    case Bool(b) => TBool(b)
    case Num(n) => TNum(n)
    case Str(s) => TStr(s)
    case Arr(items) => TArr(DenoteItems(items))
    case Obj(ms) => TObj(DenoteMembers(ms))
  }

  function DenoteItems(items: Items): seq<Tree> {
    match items
    case NoItems => []
    case Item(v, tail) => [Denote(v)] + DenoteItems(tail)
  }

  function DenoteMembers(ms: Members): (m: map<string, Tree>)
    ensures m.Keys == Keys(ms)
  {
    match ms
    case NoMembers => map[]
    case Member(k, v, rest) => DenoteMembers(rest)[k := Denote(v)]
  }

  /** JavaScript objects have distinct keys. */
  predicate WellFormed(v: Json) {
    match v
    case Arr(items) => WellFormedItems(items)
    case Obj(ms) => WellFormedMembers(ms)
    case _ => true
  }

  predicate WellFormedItems(items: Items) {
    match items
    case NoItems => true
    case Item(v, tail) => WellFormed(v) && WellFormedItems(tail)
  }

  predicate WellFormedMembers(ms: Members) {
    match ms
    case NoMembers => true
    case Member(k, v, rest) => k !in Keys(rest) && WellFormed(v) && WellFormedMembers(rest)
  }

  // ---------------------------------------------------------------- enumeration order of keys

  /** Code unit order, as Array.prototype.sort compares strings. */
  predicate LexLess(a: string, b: string) {
    b != [] && (a == [] || a[0] < b[0] || (a[0] == b[0] && LexLess(a[1..], b[1..])))
  }

  /** A canonical array index: JavaScript enumerates these keys first, in numeric order. */
  predicate IsIndex(key: string) {
    && 0 < |key| <= 10
    && (forall i :: 0 <= i < |key| ==> '0' <= key[i] <= '9')
    && (key[0] == '0' ==> |key| == 1)
    && (|key| == 10 ==> !LexLess("4294967294", key))
  }

  predicate Precedes(a: string, b: string) {
    if IsIndex(a) != IsIndex(b) then IsIndex(a)
    else if IsIndex(a) && |a| != |b| then |a| < |b|
    else LexLess(a, b)
  }

  lemma {:induction false} LexTotal(a: string, b: string)
    ensures !(LexLess(a, b) && LexLess(b, a))
    ensures a != b ==> LexLess(a, b) || LexLess(b, a)
    ensures !LexLess(a, a)
  {
    if a != [] {
      LexTotal(a[1..], a[1..]);
      if b != [] {
        LexTotal(a[1..], b[1..]);
        assert a == [a[0]] + a[1..] && b == [b[0]] + b[1..];
      }
    }
  }

  lemma {:induction false} LexTransitive(a: string, b: string, c: string)
    requires LexLess(a, b) && LexLess(b, c)
    ensures LexLess(a, c)
  {
    if a != [] && a[0] == b[0] == c[0] {
      LexTransitive(a[1..], b[1..], c[1..]);
    }
  }

  lemma PrecedesTransitive(a: string, b: string, c: string)
    requires Precedes(a, b) && Precedes(b, c)
    ensures Precedes(a, c)
  {
    if LexLess(a, b) && LexLess(b, c) {
      LexTransitive(a, b, c);
    }
  }

  // ---------------------------------------------------------------- canonicalise

  /** Assigning to "__proto__" sets an object's prototype instead of adding a member. */
  const PROTO := "__proto__"

  /** A member put where enumeration will find it; keys arrive sorted, and index keys move to the front. */
  function Place(key: string, value: Json, ms: Members): Members {
    match ms
    case NoMembers => Member(key, value, NoMembers)
    case Member(k, v, rest) =>
      if Precedes(key, k) then Member(key, value, ms) else Member(k, v, Place(key, value, rest))
  }

  function Canon(v: Json): Json {
    match v
    case Arr(items) => Arr(CanonItems(items))
    case Obj(ms) => Obj(CanonMembers(ms))
    case _ => v
  }

  function CanonItems(items: Items): Items {
    match items
    case NoItems => NoItems
    case Item(v, tail) => Item(Canon(v), CanonItems(tail))
  }

  function CanonMembers(ms: Members): Members {
    match ms
    case NoMembers => NoMembers
    case Member(k, v, rest) =>
      if k == PROTO then CanonMembers(rest) else Place(k, Canon(v), CanonMembers(rest))
  }

  /** hashBody: an absent or null body counts as the empty object. */
  function HashBody(body: Option<Json>): Json {
    Canon(Body(body))
  }

  function Body(body: Option<Json>): Json {
    if body.None? || body.value.Null? then Obj(NoMembers) else body.value
  }

  // ---------------------------------------------------------------- what canonicalise keeps

  /** The meaning without "__proto__" members, at any depth: all that canonicalise can see. */
  function Visible(t: Tree): Tree {
    match t
    case TArr(items) => TArr(seq(|items|, i requires 0 <= i < |items| => Visible(items[i])))
    case TObj(m) => TObj(map k | k in m && k != PROTO :: Visible(m[k]))
    case _ => t
  }

  function VisibleItems(items: seq<Tree>): (r: seq<Tree>)
    ensures |r| == |items| && forall i :: 0 <= i < |items| ==> r[i] == Visible(items[i])
  {
    seq(|items|, i requires 0 <= i < |items| => Visible(items[i]))
  }

  function VisibleMembers(m: map<string, Tree>): map<string, Tree> {
    map k | k in m && k != PROTO :: Visible(m[k])
  }

  predicate MentionsProto(t: Tree) {
    match t
    case TArr(items) => exists i :: 0 <= i < |items| && MentionsProto(items[i])
    case TObj(m) => PROTO in m || exists k :: k in m && MentionsProto(m[k])
    case _ => false
  }

  lemma {:induction false} PlaceDenotes(key: string, value: Json, ms: Members)
    requires key !in Keys(ms)
    ensures Keys(Place(key, value, ms)) == Keys(ms) + {key}
    ensures DenoteMembers(Place(key, value, ms)) == DenoteMembers(ms)[key := Denote(value)]
  {
    match ms
    case NoMembers =>
    case Member(k, v, rest) =>
      if !Precedes(key, k) {
        PlaceDenotes(key, value, rest);
        UpdatesCommute(DenoteMembers(rest), key, Denote(value), k, Denote(v));
      }
  }

  lemma UpdatesCommute(m: map<string, Tree>, a: string, t: Tree, b: string, u: Tree)
    requires a != b
    ensures m[a := t][b := u] == m[b := u][a := t]
  {
  }

  lemma {:induction false} CanonDenotes(v: Json)
    requires WellFormed(v)
    ensures Denote(Canon(v)) == Visible(Denote(v))
    decreases v
  {
    match v
    case Arr(items) => CanonDenotesItems(items);
    case Obj(ms) => CanonDenotesMembers(ms);
    case _ =>
  }

  lemma {:induction false} CanonDenotesItems(items: Items)
    requires WellFormedItems(items)
    ensures DenoteItems(CanonItems(items)) == VisibleItems(DenoteItems(items))
    decreases items
  {
    match items
    case NoItems =>
    case Item(v, tail) =>
      CanonDenotes(v);
      CanonDenotesItems(tail);
  }

  lemma {:induction false} CanonDenotesMembers(ms: Members)
    requires WellFormedMembers(ms)
    ensures Keys(CanonMembers(ms)) == Keys(ms) - {PROTO}
    ensures DenoteMembers(CanonMembers(ms)) == VisibleMembers(DenoteMembers(ms))
    decreases ms
  {
    match ms
    case NoMembers =>
    case Member(k, v, rest) =>
      CanonDenotes(v);
      CanonDenotesMembers(rest);
      VisibleWith(DenoteMembers(rest), k, Denote(v));
      if k != PROTO {
        PlaceDenotes(k, Canon(v), CanonMembers(rest));
      }
  }

  lemma {:induction false} VisibleWith(m: map<string, Tree>, k: string, t: Tree)
    requires k !in m
    ensures VisibleMembers(m[k := t]) == if k == PROTO then VisibleMembers(m) else VisibleMembers(m)[k := Visible(t)]
  {
  }

  // ---------------------------------------------------------------- canonical forms are unique

  predicate IsCanonical(v: Json) {
    match v
    case Arr(items) => IsCanonicalItems(items)
    case Obj(ms) => IsCanonicalMembers(ms)
    case _ => true
  }

  predicate IsCanonicalItems(items: Items) {
    match items
    case NoItems => true
    case Item(v, tail) => IsCanonical(v) && IsCanonicalItems(tail)
  }

  predicate IsCanonicalMembers(ms: Members) {
    match ms
    case NoMembers => true
    case Member(k, v, rest) =>
      k != PROTO && IsCanonical(v) && IsCanonicalMembers(rest) && forall k' :: k' in Keys(rest) ==> Precedes(k, k')
  }

  lemma {:induction false} PlaceKeepsCanonical(key: string, value: Json, ms: Members)
    requires IsCanonicalMembers(ms) && IsCanonical(value) && key !in Keys(ms) && key != PROTO
    ensures IsCanonicalMembers(Place(key, value, ms))
  {
    match ms
    case NoMembers =>
    case Member(k, v, rest) =>
      if Precedes(key, k) {
        forall k' | k' in Keys(rest) ensures Precedes(key, k') {
          PrecedesTransitive(key, k, k');
        }
      } else {
        LexTotal(key, k);
        PlaceKeepsCanonical(key, value, rest);
        PlaceDenotes(key, value, rest);
      }
  }

  lemma {:induction false} CanonIsCanonical(v: Json)
    requires WellFormed(v)
    ensures IsCanonical(Canon(v))
    decreases v
  {
    match v
    case Arr(items) => CanonIsCanonicalItems(items);
    case Obj(ms) => CanonIsCanonicalMembers(ms);
    case _ =>
  }

  lemma {:induction false} CanonIsCanonicalItems(items: Items)
    requires WellFormedItems(items)
    ensures IsCanonicalItems(CanonItems(items))
    decreases items
  {
    match items
    case NoItems =>
    case Item(v, tail) =>
      CanonIsCanonical(v);
      CanonIsCanonicalItems(tail);
  }

  lemma {:induction false} CanonIsCanonicalMembers(ms: Members)
    requires WellFormedMembers(ms)
    ensures IsCanonicalMembers(CanonMembers(ms))
    decreases ms
  {
    match ms
    case NoMembers =>
    case Member(k, v, rest) =>
      CanonIsCanonical(v);
      CanonIsCanonicalMembers(rest);
      CanonDenotesMembers(rest);
      if k != PROTO {
        PlaceKeepsCanonical(k, Canon(v), CanonMembers(rest));
      }
  }

  lemma {:induction false} CanonicalUnique(a: Json, b: Json)
    requires IsCanonical(a) && IsCanonical(b) && Denote(a) == Denote(b)
    ensures a == b
    decreases a
  {
    match a
    case Arr(items) => CanonicalUniqueItems(items, b.items);
    case Obj(ms) => CanonicalUniqueMembers(ms, b.members);
    case _ =>
  }

  lemma {:induction false} CanonicalUniqueItems(a: Items, b: Items)
    requires IsCanonicalItems(a) && IsCanonicalItems(b) && DenoteItems(a) == DenoteItems(b)
    ensures a == b
    decreases a
  {
    match a
    case NoItems =>
    case Item(v, tail) =>
      assert b.Item?;
      assert DenoteItems(a)[0] == Denote(v) && DenoteItems(b)[0] == Denote(b.head);
      assert DenoteItems(a)[1..] == DenoteItems(tail) && DenoteItems(b)[1..] == DenoteItems(b.tail);
      CanonicalUnique(v, b.head);
      CanonicalUniqueItems(tail, b.tail);
  }

  lemma {:induction false} CanonicalUniqueMembers(a: Members, b: Members)
    requires IsCanonicalMembers(a) && IsCanonicalMembers(b) && DenoteMembers(a) == DenoteMembers(b)
    ensures a == b
    decreases a
  {
    match a
    case NoMembers =>
      assert Keys(b) == {};
    case Member(k, v, rest) =>
      SameHead(a, b);
      HeadApart(a);
      HeadApart(b);
      CanonicalUnique(v, b.value);
      CanonicalUniqueMembers(rest, b.rest);
  }

  /** Each head is first in its own list and present in the other, so the heads agree. */
  lemma {:induction false} SameHead(a: Members, b: Members)
    requires IsCanonicalMembers(a) && IsCanonicalMembers(b) && a.Member? && Keys(a) == Keys(b)
    ensures b.Member? && a.key == b.key
  {
    assert a.key in Keys(b);
    assert b.key in Keys(a);
    LexTotal(a.key, b.key);
  }

  lemma {:induction false} HeadApart(a: Members)
    requires IsCanonicalMembers(a) && a.Member?
    ensures DenoteMembers(a)[a.key] == Denote(a.value) && DenoteMembers(a.rest) == DenoteMembers(a) - {a.key}
  {
    LexTotal(a.key, a.key);
    assert a.key !in Keys(a.rest);
  }

  // ---------------------------------------------------------------- main results

  /** Canonical forms agree exactly when the bodies agree up to key order, "__proto__" members aside. */
  lemma {:induction false} SameCanonIffSameTree(a: Json, b: Json)
    requires WellFormed(a) && WellFormed(b)
    ensures Canon(a) == Canon(b) <==> Visible(Denote(a)) == Visible(Denote(b))
  {
    CanonDenotes(a);
    CanonDenotes(b);
    if Visible(Denote(a)) == Visible(Denote(b)) {
      CanonIsCanonical(a);
      CanonIsCanonical(b);
      CanonicalUnique(Canon(a), Canon(b));
    }
  }

  lemma {:induction false} NothingHidden(t: Tree)
    ensures Visible(t) == t <==> !MentionsProto(t)
    decreases t
  {
    match t
    case TArr(items) =>
      forall i | 0 <= i < |items| ensures Visible(items[i]) == items[i] <==> !MentionsProto(items[i]) {
        NothingHidden(items[i]);
      }
      if Visible(t) == t {
        forall i | 0 <= i < |items| ensures !MentionsProto(items[i]) {
          assert Visible(t).items[i] == Visible(items[i]);
        }
      }
    case TObj(m) =>
      forall k | k in m ensures Visible(m[k]) == m[k] <==> !MentionsProto(m[k]) {
        NothingHidden(m[k]);
      }
      if Visible(t) == t {
        forall k | k in m ensures k != PROTO && !MentionsProto(m[k]) {
          assert k in Visible(t).members && Visible(t).members[k] == Visible(m[k]);
        }
      }
    case _ =>
  }

  /** canonicalise keeps a body's meaning exactly when no "__proto__" member occurs in it. */
  lemma {:induction false} CanonKeepsMeaningIff(v: Json)
    requires WellFormed(v)
    ensures Denote(Canon(v)) == Denote(v) <==> !MentionsProto(Denote(v))
  {
    CanonDenotes(v);
    NothingHidden(Denote(v));
  }

  lemma {:induction false} CanonicalHidesNothing(v: Json)
    requires IsCanonical(v)
    ensures WellFormed(v) && !MentionsProto(Denote(v))
    decreases v
  {
    match v
    case Arr(items) => CanonicalHidesNothingItems(items);
    case Obj(ms) => CanonicalHidesNothingMembers(ms);
    case _ =>
  }

  lemma {:induction false} CanonicalHidesNothingItems(items: Items)
    requires IsCanonicalItems(items)
    ensures WellFormedItems(items)
    ensures forall i :: 0 <= i < |DenoteItems(items)| ==> !MentionsProto(DenoteItems(items)[i])
    decreases items
  {
    match items
    case NoItems =>
    case Item(v, tail) =>
      CanonicalHidesNothing(v);
      CanonicalHidesNothingItems(tail);
  }

  lemma {:induction false} CanonicalHidesNothingMembers(ms: Members)
    requires IsCanonicalMembers(ms)
    ensures WellFormedMembers(ms) && PROTO !in Keys(ms)
    ensures forall k :: k in DenoteMembers(ms) ==> !MentionsProto(DenoteMembers(ms)[k])
    decreases ms
  {
    match ms
    case NoMembers =>
    case Member(k, v, rest) =>
      LexTotal(k, k);
      CanonicalHidesNothing(v);
      CanonicalHidesNothingMembers(rest);
  }

  /** Canonicalising a second time changes nothing. */
  lemma {:induction false} CanonIdempotent(v: Json)
    requires WellFormed(v)
    ensures Canon(Canon(v)) == Canon(v)
  {
    CanonIsCanonical(v);
    CanonicalHidesNothing(Canon(v));
    CanonIsCanonical(Canon(v));
    CanonKeepsMeaningIff(Canon(v));
    CanonicalUnique(Canon(Canon(v)), Canon(v));
  }

  /** Bodies equal up to key order always share a digest; without "__proto__" members, only they do. */
  lemma DigestDecidesEquality(a: Option<Json>, b: Option<Json>)
    requires WellFormed(Body(a)) && WellFormed(Body(b))
    ensures Denote(Body(a)) == Denote(Body(b)) ==> HashBody(a) == HashBody(b)
    ensures !MentionsProto(Denote(Body(a))) && !MentionsProto(Denote(Body(b))) && HashBody(a) == HashBody(b)
        ==> Denote(Body(a)) == Denote(Body(b))
  {
    SameCanonIffSameTree(Body(a), Body(b));
    NothingHidden(Denote(Body(a)));
    NothingHidden(Denote(Body(b)));
  }

  /** An absent body and null count as the empty object, and nothing else does. */
  lemma EmptyBodies(body: Option<Json>)
    requires body.Some? ==> WellFormed(body.value)
    ensures HashBody(None) == HashBody(Some(Null)) == HashBody(Some(Obj(NoMembers))) == Obj(NoMembers)
    ensures body.Some? && !body.value.Null? && !body.value.Obj? ==> HashBody(body) != HashBody(None)
  {
  }

  /** Two different bodies with one digest: the second differs by a "__proto__" member only. */
  lemma ProtoMemberIsNotHashed()
    ensures var plain := Obj(Member("amount", Num(100.0), NoMembers));
            var extra := Obj(Member(PROTO, Num(1.0), plain.members));
            WellFormed(extra) && Denote(plain) != Denote(extra) && HashBody(Some(plain)) == HashBody(Some(extra))
  {
    var plain := Obj(Member("amount", Num(100.0), NoMembers));
    var extra := Obj(Member(PROTO, Num(1.0), plain.members));
    assert "amount"[0] != PROTO[0];
    assert PROTO in DenoteMembers(extra.members) && PROTO !in DenoteMembers(plain.members);
  }
}
