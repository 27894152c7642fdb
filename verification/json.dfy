/** The absent-value wrapper shared by every module. */
module Options {
  datatype Option<T> = None | Some(value: T)

  /** Mapping a step that can fail over a list: every result, or `None`
      when the step fails on some item. */
  function MapAll<X, Y>(xs: seq<X>, f: X -> Option<Y>): (r: Option<seq<Y>>)
    ensures r.Some? <==> forall i :: 0 <= i < |xs| ==> f(xs[i]).Some?
    ensures r.Some? ==> |r.value| == |xs| && forall i :: 0 <= i < |xs| ==> r.value[i] == f(xs[i]).value
    decreases |xs|
  {
    if |xs| == 0 then Some([])
    else
      match f(xs[0])
      case None => None
      case Some(y) =>
        match MapAll(xs[1..], f)
        case None => None
        case Some(ys) => Some([y] + ys)
  }
}

/** CMS payloads as Python sees them after `json.loads`, and the dynamic
    operations the processors apply to them (`.get`, `in`, `[]`, `len`,
    iteration, truthiness, `str()`, `', '.join`). An operation that raises
    in Python yields `None` here. Objects keep their keys in insertion
    order, as Python dicts do. */
module Json {
  import opened Options
  import Text

  datatype Json =
    | JNull
    | JBool(b: bool)
    | JInt(i: int)
    | JReal(r: real)
    | JStr(s: string)
    | JArr(items: seq<Json>)
    | JObj(fields: seq<(string, Json)>)

  /** Python truthiness: `None`, `False`, `0`, `0.0`, `""`, `[]` and `{}`
      are false. */
  predicate Truthy(j: Json) {
    match j
    case JNull => false
    case JBool(b) => b
    case JInt(i) => i != 0
    case JReal(r) => r != 0.0
    case JStr(s) => s != []
    case JArr(a) => a != []
    case JObj(o) => o != []
  }

  /** The position of the first item with key `key`, if any. */
  function LookupIndex(fields: seq<(string, Json)>, key: string): (r: Option<nat>)
    ensures r.Some? ==> r.value < |fields| && fields[r.value].0 == key
    ensures r.Some? ==> forall j :: 0 <= j < r.value ==> fields[j].0 != key
    ensures r.None? ==> forall j :: 0 <= j < |fields| ==> fields[j].0 != key
  {
    if |fields| == 0 then None
    else if fields[0].0 == key then Some(0)
    else
      match LookupIndex(fields[1..], key)
      case None => None
      case Some(i) => Some(i + 1)
  }

  /** The first position holding `key` is the one the lookup finds. */
  lemma LookupIndexAt(fields: seq<(string, Json)>, key: string, i: nat)
    requires i < |fields| && fields[i].0 == key
    requires forall j :: 0 <= j < i ==> fields[j].0 != key
    ensures LookupIndex(fields, key) == Some(i)
  {
  }

  /** Lookups only see keys: two item lists with the same key at every
      position find every key at the same position. */
  lemma LookupSameKeys(a: seq<(string, Json)>, b: seq<(string, Json)>, key: string)
    requires |a| == |b| && forall j :: 0 <= j < |a| ==> a[j].0 == b[j].0
    ensures LookupIndex(a, key) == LookupIndex(b, key)
  {
    match LookupIndex(a, key)
    case Some(m) => LookupIndexAt(b, key, m);
    case None =>
  }

  /** `d.get(key)` on a dict; `None` for a missing key or a non-dict. The
      value found is structurally smaller than the dict holding it. */
  function Get(j: Json, key: string): (r: Option<Json>)
    ensures r.Some? ==> j.JObj? && r.value < j
  {
    match j
    case JObj(fields) =>
      (match LookupIndex(fields, key)
       case Some(i) => Some(fields[i].1)
       case None => None)
    case _ => None
  }

  /** Looking a key up in a dict whose first item is `(k, v)`. */
  lemma GetCons(k: string, v: Json, rest: seq<(string, Json)>, key: string)
    ensures Get(JObj([(k, v)] + rest), key) == if k == key then Some(v) else Get(JObj(rest), key)
  {
    assert ([(k, v)] + rest)[1..] == rest;
  }

  /** Lookups in dict displays of one, two and three items. */
  lemma Get1(k1: string, v1: Json, key: string)
    ensures Get(JObj([(k1, v1)]), key) == if key == k1 then Some(v1) else None
  {
    assert [(k1, v1)][1..] == [];
  }

  lemma Get2(k1: string, v1: Json, k2: string, v2: Json, key: string)
    ensures Get(JObj([(k1, v1), (k2, v2)]), key) ==
      if key == k1 then Some(v1) else if key == k2 then Some(v2) else None
  {
    GetCons(k1, v1, [(k2, v2)], key);
    assert [(k1, v1)] + [(k2, v2)] == [(k1, v1), (k2, v2)];
    Get1(k2, v2, key);
  }

  lemma Get3(k1: string, v1: Json, k2: string, v2: Json, k3: string, v3: Json, key: string)
    ensures Get(JObj([(k1, v1), (k2, v2), (k3, v3)]), key) ==
      if key == k1 then Some(v1) else if key == k2 then Some(v2) else if key == k3 then Some(v3) else None
  {
    GetCons(k1, v1, [(k2, v2), (k3, v3)], key);
    assert [(k1, v1)] + [(k2, v2), (k3, v3)] == [(k1, v1), (k2, v2), (k3, v3)];
    Get2(k2, v2, k3, v3, key);
  }

  predicate HasKey(j: Json, key: string) {
    Get(j, key).Some?
  }

  /** `d.get(key, default)` on a dict. */
  function GetOr(j: Json, key: string, default: Json): Json {
    match Get(j, key)
    case Some(v) => v
    case None => default
  }

  /** `x.get(key, default)` where `x` need not be a dict: any other value
      has no `get` and raises `AttributeError`. */
  function PyGet(j: Json, key: string, default: Json): Option<Json> {
    if j.JObj? then Some(GetOr(j, key, default)) else None
  }

  /** Python `a or b`. */
  function Or(a: Json, b: Json): Json {
    if Truthy(a) then a else b
  }

  /** Python `x[i]` for a non-negative integer `i`: an element of a list or
      a one-character string of a string; out of range raises, and so does
      a dict, whose keys are strings. */
  function Index(j: Json, i: nat): Option<Json> {
    match j
    case JArr(items) => if i < |items| then Some(items[i]) else None
    case JStr(s) => if i < |s| then Some(JStr([s[i]])) else None
    case _ => None
  }

  /** Python `d[key] = v`: an existing key keeps its position and takes the
      new value; a new key goes at the end. */
  function Put(fields: seq<(string, Json)>, key: string, v: Json): (r: seq<(string, Json)>)
    ensures HasKey(JObj(fields), key) ==> |r| == |fields|
    ensures !HasKey(JObj(fields), key) ==> r == fields + [(key, v)]
  {
    match LookupIndex(fields, key)
    case Some(i) => fields[i := (key, v)]
    case None => fields + [(key, v)]
  }

  /** After `d[key] = v`, `key` maps to `v` and every other key to what it
      mapped to before. */
  lemma PutGet(fields: seq<(string, Json)>, key: string, v: Json, k: string)
    ensures Get(JObj(Put(fields, key, v)), k) == if k == key then Some(v) else Get(JObj(fields), k)
  {
    var r := Put(fields, key, v);
    match LookupIndex(fields, key)
    case Some(i) =>
      LookupIndexAt(r, key, i);
      if k != key {
        LookupSameKeys(r, fields, k);
      }
    case None =>
      LookupIndexAt(r, key, |fields|);
      if k != key {
        match LookupIndex(fields, k)
        case Some(m) => LookupIndexAt(r, k, m);
        case None =>
      }
  }

  /** Python `d.update(pairs)`: `Put` of each pair in order. */
  function Update(fields: seq<(string, Json)>, pairs: seq<(string, Json)>): (r: seq<(string, Json)>)
    decreases |pairs|
  {
    if |pairs| == 0 then fields
    else Update(Put(fields, pairs[0].0, pairs[0].1), pairs[1..])
  }

  /** The value the last pair with key `k` carries, if any. */
  function LastFor(pairs: seq<(string, Json)>, k: string): Option<Json>
    decreases |pairs|
  {
    if |pairs| == 0 then None
    else
      match LastFor(pairs[1..], k)
      case Some(v) => Some(v)
      case None => if pairs[0].0 == k then Some(pairs[0].1) else None
  }

  lemma {:induction false} LastForNone(pairs: seq<(string, Json)>, k: string)
    requires forall j :: 0 <= j < |pairs| ==> pairs[j].0 != k
    ensures LastFor(pairs, k).None?
    decreases |pairs|
  {
    if |pairs| > 0 {
      LastForNone(pairs[1..], k);
    }
  }

  /** The last pair with key `k` decides its value. */
  lemma {:induction false} LastForAt(pairs: seq<(string, Json)>, k: string, i: nat)
    requires i < |pairs| && pairs[i].0 == k
    requires forall j :: i < j < |pairs| ==> pairs[j].0 != k
    ensures LastFor(pairs, k) == Some(pairs[i].1)
    decreases |pairs|
  {
    if i == 0 {
      LastForNone(pairs[1..], k);
    } else {
      LastForAt(pairs[1..], k, i - 1);
    }
  }

  /** The first item with key `k` decides its value. */
  lemma GetAt(fields: seq<(string, Json)>, k: string, i: nat)
    requires i < |fields| && fields[i].0 == k
    requires forall j :: 0 <= j < i ==> fields[j].0 != k
    ensures Get(JObj(fields), k) == Some(fields[i].1)
  {
    LookupIndexAt(fields, k, i);
  }

  /** The keys of an object are distinct, as in every dict and every
      JavaScript object. */
  predicate UniqueNames(fields: seq<(string, Json)>) {
    forall i, j :: 0 <= i < j < |fields| ==> fields[i].0 != fields[j].0
  }

  /** With distinct keys, every item is found under its key. */
  lemma GetUnique(fields: seq<(string, Json)>, i: nat)
    requires UniqueNames(fields) && i < |fields|
    ensures Get(JObj(fields), fields[i].0) == Some(fields[i].1)
  {
    GetAt(fields, fields[i].0, i);
  }

  /** The value a dict holds under `key`, or `default` when it holds
      none: what `d.get(key, default)` means. */
  function Given(d: Json, key: string, default: Json): Json {
    if HasKey(d, key) then Get(d, key).value else default
  }

  lemma GivenIsGetOr(d: Json, key: string, default: Json)
    ensures Given(d, key, default) == GetOr(d, key, default)
  {
  }

  /** After `d.update(pairs)`, a key maps to the last value `pairs` gives
      it, and a key `pairs` does not mention keeps its old value. */
  lemma {:induction false} UpdateGet(fields: seq<(string, Json)>, pairs: seq<(string, Json)>, k: string)
    ensures Get(JObj(Update(fields, pairs)), k) ==
      match LastFor(pairs, k)
      case Some(v) => Some(v)
      case None => Get(JObj(fields), k)
    decreases |pairs|
  {
    if |pairs| > 0 {
      UpdateGet(Put(fields, pairs[0].0, pairs[0].1), pairs[1..], k);
      PutGet(fields, pairs[0].0, pairs[0].1, k);
    }
  }

  /** A Python dict display: the pairs inserted in order into an empty
      dict, so a repeated key keeps its first position and its last
      value. */
  function Dict(pairs: seq<(string, Json)>): seq<(string, Json)> {
    Update([], pairs)
  }

  /** A key of a dict display maps to the last value the display gives
      it. */
  lemma DictGet(pairs: seq<(string, Json)>, k: string)
    ensures Get(JObj(Dict(pairs)), k) == LastFor(pairs, k)
  {
    UpdateGet([], pairs, k);
  }

  /** Python `key in container` for a string key: key membership for a
      dict, element equality for a list, substring for a string; any other
      container raises `TypeError`. */
  function In(key: string, container: Json): Option<bool> {
    match container
    case JObj(_) => Some(HasKey(container, key))
    case JArr(items) => Some(JStr(key) in items)
    case JStr(s) => Some(Text.Contains(s, key))
    case _ => None
  }

  /** Python `container[key]` for a string key: only a dict holding the key
      answers; everything else raises. */
  function Subscript(container: Json, key: string): Option<Json> {
    Get(container, key)
  }

  /** The items a Python `for` loop visits: list elements, one-character
      strings of a string, the keys of a dict; scalars raise `TypeError`. */
  function Iter(j: Json): Option<seq<Json>> {
    match j
    case JArr(items) => Some(items)
    case JStr(s) => Some(seq(|s|, i requires 0 <= i < |s| => JStr([s[i]])))
    case JObj(fields) => Some(seq(|fields|, i requires 0 <= i < |fields| => JStr(fields[i].0)))
    case _ => None
  }

  /** Python `len(x)`. */
  function Len(j: Json): Option<nat> {
    match j
    case JArr(items) => Some(|items|)
    case JStr(s) => Some(|s|)
    case JObj(fields) => Some(|fields|)
    case _ => None
  }

  /** Python `str(x)`. Strings, integers, booleans and `None` are rendered
      exactly; floats, lists and dicts go through `repr`, which the model
      does not interpret. */
  function Str(j: Json, repr: Json -> string): string {
    match j
    case JNull => "None"
    case JBool(b) => if b then "True" else "False"
    case JInt(i) => Text.IntToString(i)
    case JStr(s) => s
    case _ => repr(j)
  }

  /** Python numeric equality `x == n`; `True == 1` holds. */
  predicate NumEq(j: Json, n: int) {
    match j
    case JInt(i) => i == n
    case JBool(b) => (if b then 1 else 0) == n
    case JReal(r) => r == n as real
    case _ => false
  }

  /** Python `x <= n`; comparing a non-number with an int raises. */
  function NumLe(j: Json, n: int): Option<bool> {
    match j
    case JInt(i) => Some(i <= n)
    case JBool(b) => Some((if b then 1 else 0) <= n)
    case JReal(r) => Some(r <= n as real)
    case _ => None
  }

  /** The strings of a sequence of values, or `None` when one is not a
      string. */
  function AllStrs(xs: seq<Json>): (r: Option<seq<string>>)
    ensures r.Some? <==> forall i :: 0 <= i < |xs| ==> xs[i].JStr?
    ensures r.Some? ==> |r.value| == |xs| && forall i :: 0 <= i < |xs| ==> xs[i] == JStr(r.value[i])
  {
    if |xs| == 0 then Some([])
    else if !xs[0].JStr? then None
    else
      match AllStrs(xs[1..])
      case None => None
      case Some(rest) => Some([xs[0].s] + rest)
  }

  /** Python `sep.join(x)`: `x` must be iterable and yield strings only. */
  function JoinValue(sep: string, x: Json): Option<string> {
    match Iter(x)
    case None => None
    case Some(items) =>
      match AllStrs(items)
      case None => None
      case Some(strs) => Some(Text.Join(strs, sep))
  }

  /** Python `str(n)` for a count. */
  function NatStr(n: nat): string {
    Text.IntToString(n)
  }
}
