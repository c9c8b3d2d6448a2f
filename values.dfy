/** Field values of a scan report and the attribute values a span can carry:
    the reporter's sanitize_attribute and set_attributes. */
module Values {
  import Keys

  /** A report field as the reporting engine hands it over (a Ruby object). */
  datatype Value =
    | Str(s: string)
    | Num(n: int)
    | Bool(b: bool)
    | Other(text: string)  // any other object (array, hash, symbol, ...), with the text its to_s gives
    | Nil

  /** The value types a span attribute may hold. */
  datatype Attribute = StringAttr(s: string) | NumberAttr(n: int) | BoolAttr(b: bool)

  /** Strings, numerics and booleans: the values sanitize_attribute passes through. */
  predicate IsScalar(v: Value) {
    v.Str? || v.Num? || v.Bool?
  }

  /** An attribute value seen again as a report value. */
  function Embed(a: Attribute): (v: Value)
    ensures IsScalar(v)
  {
    match a
    case StringAttr(s) => Str(s)
    case NumberAttr(n) => Num(n)
    case BoolAttr(b) => Bool(b)
  }

  function Digit(d: nat): char
    requires d < 10
  {
    "0123456789"[d]
  }

  /** Decimal notation of a natural number, as Integer#to_s writes it. */
  function Decimal(n: nat): (r: string)
    ensures |r| > 0
  {
    if n < 10 then [Digit(n)] else Decimal(n / 10) + [Digit(n % 10)]
  }

  /** The text Ruby's to_s (and string interpolation) gives for a value; nil.to_s is "". */
  function Text(v: Value): string {
    match v
    case Str(s) => s
    case Num(n) => if n < 0 then "-" + Decimal(-n) else Decimal(n)
    case Bool(b) => if b then "true" else "false"
    case Other(t) => t
    case Nil => ""
  }

  /** sanitize_attribute: scalars come back unchanged, anything else as its string form. */
  function Sanitize(v: Value): (a: Attribute)
    ensures IsScalar(v) ==> Embed(a) == v
    ensures !IsScalar(v) ==> a.StringAttr?
    ensures Text(Embed(a)) == Text(v)
  {
    match v
    case Str(s) => StringAttr(s)
    case Num(n) => NumberAttr(n)
    case Bool(b) => BoolAttr(b)
    case Other(t) => StringAttr(t)
    case Nil => StringAttr("")
  }

  /** The keys of an attribute hash whose value is not nil. */
  ghost function PresentKeys(ps: seq<(Keys.Key, Value)>): set<Keys.Key> {
    set i | 0 <= i < |ps| && ps[i].1 != Nil :: ps[i].0
  }

  /** A hash literal: no key occurs twice. */
  ghost predicate DistinctKeys(ps: seq<(Keys.Key, Value)>) {
    forall i, j :: 0 <= i < j < |ps| ==> ps[i].0 != ps[j].0
  }

  /** set_attributes, on the attribute map of one span: walk the hash in order and set every
      non-nil value, sanitized. */
  function Attach(m: map<Keys.Key, Attribute>, ps: seq<(Keys.Key, Value)>): map<Keys.Key, Attribute>
    decreases |ps|
  {
    if |ps| == 0 then m
    else
      var last := ps[|ps| - 1];
      var r' := Attach(m, ps[..|ps| - 1]);
      if last.1 == Nil then r' else r'[last.0 := Sanitize(last.1)]
  }

  /** set_attributes adds exactly the keys whose value is not nil and leaves the others alone. */
  lemma {:induction false} AttachKeys(m: map<Keys.Key, Attribute>, ps: seq<(Keys.Key, Value)>)
    ensures Attach(m, ps).Keys == m.Keys + PresentKeys(ps)
    ensures forall k :: k in m && k !in PresentKeys(ps) ==> Attach(m, ps)[k] == m[k]
    decreases |ps|
  {
    if |ps| > 0 {
      AttachKeys(m, ps[..|ps| - 1]);
      PresentKeysSnoc(ps);
    }
  }

  lemma {:induction false} PresentKeysSnoc(ps: seq<(Keys.Key, Value)>)
    requires |ps| > 0
    ensures PresentKeys(ps) ==
      PresentKeys(ps[..|ps| - 1]) + (if ps[|ps| - 1].1 == Nil then {} else {ps[|ps| - 1].0})
  {
    var init := ps[..|ps| - 1];
    forall k | k in PresentKeys(ps)
      ensures k in PresentKeys(init) + (if ps[|ps| - 1].1 == Nil then {} else {ps[|ps| - 1].0})
    {
      var i :| 0 <= i < |ps| && ps[i].1 != Nil && ps[i].0 == k;
      if i < |ps| - 1 {
        assert init[i] == ps[i];
      }
    }
    forall k | k in PresentKeys(init) ensures k in PresentKeys(ps) {
      var i :| 0 <= i < |init| && init[i].1 != Nil && init[i].0 == k;
      assert ps[i] == init[i];
    }
  }

  /** With distinct keys, every non-nil entry of the hash lands on the span as its sanitized value. */
  lemma {:induction false} AttachValue(m: map<Keys.Key, Attribute>, ps: seq<(Keys.Key, Value)>, i: nat)
    requires DistinctKeys(ps)
    requires i < |ps| && ps[i].1 != Nil
    ensures ps[i].0 in Attach(m, ps) && Attach(m, ps)[ps[i].0] == Sanitize(ps[i].1)
  {
    if i < |ps| - 1 {
      var init := ps[..|ps| - 1];
      assert init[i] == ps[i];
      assert DistinctKeys(init) by {
        forall a, b | 0 <= a < b < |init| ensures init[a].0 != init[b].0 {
          assert init[a] == ps[a] && init[b] == ps[b];
        }
      }
      AttachValue(m, init, i);
      assert ps[|ps| - 1].0 != ps[i].0;
    }
  }

  /** With distinct keys, a nil entry never creates its key. */
  lemma {:induction false} NilNotAttached(m: map<Keys.Key, Attribute>, ps: seq<(Keys.Key, Value)>, i: nat)
    requires DistinctKeys(ps)
    requires i < |ps| && ps[i].1 == Nil && ps[i].0 !in m
    ensures ps[i].0 !in Attach(m, ps)
  {
    AttachKeys(m, ps);
    assert ps[i].0 !in PresentKeys(ps);
  }

  /** A span's attributes record the entry `k => v` as set_attributes leaves it: absent when
      `v` is nil, its sanitized value otherwise. */
  predicate Carries(attrs: map<Keys.Key, Attribute>, k: Keys.Key, v: Value) {
    if v == Nil then k !in attrs else k in attrs && attrs[k] == Sanitize(v)
  }

  /** The attributes are exactly the hash's non-nil entries, sanitized. */
  ghost predicate CarriesAll(attrs: map<Keys.Key, Attribute>, ps: seq<(Keys.Key, Value)>) {
    && attrs.Keys == PresentKeys(ps)
    && forall i :: 0 <= i < |ps| ==> Carries(attrs, ps[i].0, ps[i].1)
  }

  /** set_attributes on a span without attributes, with a hash literal. */
  lemma {:induction false} AttachCarries(ps: seq<(Keys.Key, Value)>)
    requires DistinctKeys(ps)
    ensures CarriesAll(Attach(map[], ps), ps)
  {
    AttachKeys(map[], ps);
    forall i | 0 <= i < |ps| ensures Carries(Attach(map[], ps), ps[i].0, ps[i].1) {
      if ps[i].1 == Nil {
        NilNotAttached(map[], ps, i);
      } else {
        AttachValue(map[], ps, i);
      }
    }
  }

  /** Two set_attributes calls in a row set what one call with both hashes sets. */
  lemma {:induction false} AttachConcat(m: map<Keys.Key, Attribute>, a: seq<(Keys.Key, Value)>, b: seq<(Keys.Key, Value)>)
    ensures Attach(Attach(m, a), b) == Attach(m, a + b)
    decreases |b|
  {
    if |b| == 0 {
      assert a + b == a;
    } else {
      assert (a + b)[..|a + b| - 1] == a + b[..|b| - 1];
      AttachConcat(m, a, b[..|b| - 1]);
    }
  }
}
