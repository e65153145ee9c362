/** The dynamically typed values the tools pass around (JSON-like Python
    objects) and the few dictionary operations the code performs on them.
    A dictionary is an insertion-ordered list of entries, as in Python. */
module Values {
  import opened Text

  datatype Value =
    | VNone
    | VBool(b: bool)
    | VInt(i: int)
    | VStr(s: string)
    | VList(items: seq<Value>)
    | VDict(entries: seq<Entry>)

  datatype Entry = Entry(key: string, val: Value)

  type Dict = seq<Entry>

  function Keys(d: Dict): (ks: seq<string>)
    ensures |ks| == |d|
    ensures forall i :: 0 <= i < |d| ==> ks[i] == d[i].key
  {
    seq(|d|, i requires 0 <= i < |d| => d[i].key)
  }

  /** Python dictionaries never repeat a key. */
  predicate UniqueKeys(d: Dict) {
    forall i, j :: 0 <= i < j < |d| ==> d[i].key != d[j].key
  }

  predicate HasKey(d: Dict, k: string) {
    exists i :: 0 <= i < |d| && d[i].key == k
  }

  /** The position of `k` in `d` (Python keeps one entry per key; the first
      one is the one that counts if a list of entries repeats a key). */
  function KeyIndex(d: Dict, k: string): (i: nat)
    requires HasKey(d, k)
    ensures i < |d| && d[i].key == k
    ensures forall j :: 0 <= j < i ==> d[j].key != k
    decreases |d|
  {
    if d[0].key == k then 0
    else
      assert HasKey(d[1..], k) by {
        var i :| 0 <= i < |d| && d[i].key == k;
        assert d[1..][i - 1] == d[i];
      }
      KeyIndex(d[1..], k) + 1
  }

  /** `d.get(k)`: the value stored under `k`, if any. */
  function Get(d: Dict, k: string): (r: Option<Value>)
    ensures r.Some? <==> HasKey(d, k)
  {
    if HasKey(d, k) then Some(d[KeyIndex(d, k)].val) else None
  }

  /** The entry at `i` answers for its key when no earlier entry has that key. */
  lemma GetAt(d: Dict, i: nat)
    requires i < |d| && forall j :: 0 <= j < i ==> d[j].key != d[i].key
    ensures Get(d, d[i].key) == Some(d[i].val)
  {
    assert HasKey(d, d[i].key);
  }

  /** `{k: v}.get(k2)`. */
  lemma GetSingle(k: string, v: Value, k2: string)
    ensures Get([Entry(k, v)], k2) == if k2 == k then Some(v) else None
  {
    if k2 == k {
      GetAt([Entry(k, v)], 0);
    }
  }

  /** `d.get(k)` with `None` for a missing key. */
  function GetOrNone(d: Dict, k: string): Value {
    match Get(d, k)
    case Some(v) => v
    case None => VNone
  }

  /** Two dictionaries with the same key order place every key alike. */
  lemma SameKeysSameIndex(d: Dict, e: Dict, k: string)
    requires Keys(d) == Keys(e)
    ensures HasKey(d, k) <==> HasKey(e, k)
    ensures HasKey(d, k) ==> KeyIndex(d, k) == KeyIndex(e, k)
  {
    if HasKey(d, k) {
      var i := KeyIndex(d, k);
      assert e[i].key == Keys(e)[i];
    }
    if HasKey(e, k) {
      var i := KeyIndex(e, k);
      assert d[i].key == Keys(d)[i];
    }
  }

  /** `d[k] = v`: replace in place when present, otherwise append. */
  function Put(d: Dict, k: string, v: Value): (r: Dict)
    ensures Get(r, k) == Some(v)
    ensures forall k' :: k' != k ==> Get(r, k') == Get(d, k')
    ensures HasKey(d, k) ==> Keys(r) == Keys(d)
    ensures !HasKey(d, k) ==> Keys(r) == Keys(d) + [k]
  {
    if HasKey(d, k) then
      var i := KeyIndex(d, k);
      var r := d[i := Entry(k, v)];
      assert Keys(r) == Keys(d);
      assert HasKey(r, k) by { assert r[i].key == k; }
      forall k' | k' != k ensures Get(r, k') == Get(d, k') {
        SameKeysSameIndex(d, r, k');
      }
      r
    else
      var r := d + [Entry(k, v)];
      assert Keys(r) == Keys(d) + [k];
      assert HasKey(r, k) by { assert r[|d|].key == k; }
      forall k' | k' != k ensures Get(r, k') == Get(d, k') {
        assert HasKey(r, k') ==> HasKey(d, k') by {
          if HasKey(r, k') { assert KeyIndex(r, k') < |d|; }
        }
        if HasKey(d, k') {
          var j := KeyIndex(d, k');
          assert r[j] == d[j];
        }
      }
      r
  }

  /** Python truthiness. */
  predicate Truthy(v: Value) {
    match v
    case VNone => false
    case VBool(b) => b
    case VInt(i) => i != 0
    case VStr(s) => s != ""
    case VList(items) => items != []
    case VDict(entries) => entries != []
  }

  /** `v in (None, "", [])`: the values the tools treat as absent. */
  predicate IsAbsent(v: Value) {
    v == VNone || v == VStr("") || v == VList([])
  }

  /** Python's `str(v)`. Strings nested in lists and dictionaries are quoted
      with single quotes; Python's escaping of quotes inside them is not modelled. */
  function Str(v: Value): string
    decreases v, 2, 0
  {
    match v
    case VStr(s) => s
    case _ => Repr(v)
  }

  /** Python's `repr(v)`. */
  function Repr(v: Value): string
    decreases v, 1, 0
  {
    match v
    case VNone => "None"
    case VBool(b) => if b then "True" else "False"
    case VInt(i) => IntToString(i)
    case VStr(s) => "'" + s + "'"
    case VList(items) => "[" + ReprItems(v, items) + "]"
    case VDict(entries) => "{" + ReprEntries(v, entries) + "}"
  }

  function ReprItems(ghost parent: Value, items: seq<Value>): string
    requires forall x :: x in items ==> x < parent
    decreases parent, 0, |items|
  {
    if items == [] then ""
    else if |items| == 1 then assert items[0] in items; Repr(items[0])
    else
      assert items[0] in items;
      assert forall x :: x in items[1..] ==> x in items;
      Repr(items[0]) + ", " + ReprItems(parent, items[1..])
  }

  function ReprEntries(ghost parent: Value, entries: seq<Entry>): string
    requires forall e :: e in entries ==> e.val < parent
    decreases parent, 0, |entries|
  {
    if entries == [] then ""
    else
      var first := "'" + entries[0].key + "': " + Repr(entries[0].val);
      if |entries| == 1 then first
      else
        assert forall e :: e in entries[1..] ==> e in entries;
        first + ", " + ReprEntries(parent, entries[1..])
  }

  /** `d.get(k, default)`. */
  function GetOr(d: Dict, k: string, default: Value): Value {
    match Get(d, k)
    case Some(v) => v
    case None => default
  }

  /** The integer Python sees in a number (`True == 1`, `False == 0`). */
  function NumericValue(v: Value): Option<int> {
    match v
    case VInt(i) => Some(i)
    case VBool(b) => Some(if b then 1 else 0)
    case _ => None
  }

  /** Python's `a == b` on the values the tools compare (identifiers and
      tags): numbers compare by value across `bool` and `int`, everything
      else structurally. */
  predicate PyEq(a: Value, b: Value) {
    if NumericValue(a).Some? && NumericValue(b).Some? then NumericValue(a) == NumericValue(b)
    else a == b
  }

  /** Python's `True == 1`: the one place where `==` is not structural. */
  lemma PyEqBoolInt()
    ensures PyEq(VBool(true), VInt(1)) && !PyEq(VBool(true), VInt(2)) && !PyEq(VStr("1"), VInt(1))
  {
  }

  /** `isinstance(v, str) and v.strip()`, answering `v.strip()`. */
  function NonBlankText(v: Value): (r: Option<string>)
    ensures r.Some? <==> v.VStr? && !IsBlank(v.s)
    ensures r.Some? ==> r.value == Strip(v.s) && r.value != ""
    ensures r.Some? ==> Strip(r.value) == r.value
  {
    if v.VStr? && !IsBlank(v.s) then StripOfUnspaced(Strip(v.s)); Some(Strip(v.s)) else None
  }

  /** `d.get(k, {}) or {}`: falsy values give an empty dictionary. */
  function GetOrEmpty(d: Dict, k: string): (r: Value)
    ensures Truthy(GetOr(d, k, VDict([]))) ==> r == GetOr(d, k, VDict([]))
    ensures !Truthy(GetOr(d, k, VDict([]))) ==> r == VDict([])
  {
    var v := GetOr(d, k, VDict([]));
    if Truthy(v) then v else VDict([])
  }
}
