/**
 * The slice of PHP's value model the Mosaic builders depend on: scalar values,
 * ordered string-keyed arrays, truthiness (`if ($x)`, `empty()`), string
 * conversion (`sprintf('%s', $x)`), `isset`, `$a[$k] = $v`, `array_merge`
 * and WordPress's `wp_parse_args`.
 */
module Php {
  import opened Strings

  /** A PHP value. Arrays are ordered lists of key/value entries with string keys. */
  datatype Value = Null | Bool(b: bool) | Int(i: int) | Str(s: string) | Arr(entries: seq<Entry>)
  datatype Entry = Entry(key: string, val: Value)

  type Array = seq<Entry>

  /** PHP's conversion to boolean: `''`, `'0'`, `0`, `false`, `null` and `[]` are falsy. */
  predicate Truthy(v: Value) {
    match v
    case Null => false
    case Bool(b) => b
    case Int(i) => i != 0
    case Str(s) => s != "" && s != "0"
    case Arr(es) => |es| > 0
  }

  /** `empty($x)` for a variable that is set. */
  predicate Empty(v: Value) {
    !Truthy(v)
  }

  /** PHP string conversion, as `sprintf('%s', $x)` and the escaping functions apply it. */
  function ToStr(v: Value): string {
    match v
    case Null => ""
    case Bool(b) => if b then "1" else ""
    case Int(i) => IntToString(i)
    case Str(s) => s
    case Arr(_) => "Array"
  }

  function Keys(a: Array): seq<string> {
    seq(|a|, i requires 0 <= i < |a| => a[i].key)
  }

  predicate HasKey(a: Array, k: string) {
    exists i :: 0 <= i < |a| && a[i].key == k
  }

  /** Keys are unique, as in every PHP array. */
  predicate WellFormed(a: Array) {
    forall i, j :: 0 <= i < j < |a| ==> a[i].key != a[j].key
  }

  /** `$a[$k]`; an undefined index reads as null. */
  function Get(a: Array, k: string): Value {
    if |a| == 0 then Null
    else if a[0].key == k then a[0].val
    else Get(a[1..], k)
  }

  /** Reading a key the array does not hold gives null. */
  lemma {:induction false} GetAbsent(a: Array, k: string)
    ensures !HasKey(a, k) ==> Get(a, k) == Null
    decreases |a|
  {
    if |a| > 0 && a[0].key != k {
      GetAbsent(a[1..], k);
      if HasKey(a[1..], k) {
        var i :| 0 <= i < |a[1..]| && a[1..][i].key == k;
        assert a[i + 1].key == k;
      }
    }
  }

  /** Reading a key gives the value of its first entry. */
  lemma {:induction false} GetFirst(a: Array, k: string, i: nat)
    requires i < |a| && a[i].key == k
    requires forall j :: 0 <= j < i ==> a[j].key != k
    ensures Get(a, k) == a[i].val
    decreases i
  {
    if i > 0 {
      assert a[0].key != k;
      assert a[1..][i - 1] == a[i];
      GetFirst(a[1..], k, i - 1);
    }
  }

  /** In an array without duplicate keys, reading a key gives the value stored under it. */
  lemma GetFound(a: Array, k: string, i: nat)
    requires WellFormed(a) && i < |a| && a[i].key == k
    ensures Get(a, k) == a[i].val
  {
    GetFirst(a, k, i);
  }

  /** `isset($a[$k])`: the key is present and its value is not null. */
  predicate IsSet(a: Array, k: string) {
    Get(a, k) != Null
  }

  /** `$a[$k] = $v`: an existing key keeps its position, a new key goes last. */
  function Set(a: Array, k: string, v: Value): (r: Array)
    ensures HasKey(a, k) ==> |r| == |a|
    ensures !HasKey(a, k) ==> r == a + [Entry(k, v)]
    ensures forall i :: 0 <= i < |a| ==> r[i].key == a[i].key
  {
    if |a| == 0 then [Entry(k, v)]
    else if a[0].key == k then [Entry(k, v)] + a[1..]
    else [a[0]] + Set(a[1..], k, v)
  }

  lemma {:induction false} SetGet(a: Array, k: string, v: Value, k': string)
    ensures Get(Set(a, k, v), k') == if k' == k then v else Get(a, k')
    decreases |a|
  {
    if |a| > 0 && a[0].key != k {
      SetGet(a[1..], k, v, k');
      assert Set(a, k, v)[1..] == Set(a[1..], k, v);
    }
  }

  /** Assigning the same value to the same key twice is assigning it once. */
  lemma {:induction false} SetSetSame(a: Array, k: string, v: Value)
    ensures Set(Set(a, k, v), k, v) == Set(a, k, v)
    decreases |a|
  {
    if |a| > 0 && a[0].key != k {
      SetSetSame(a[1..], k, v);
      assert Set(a, k, v)[1..] == Set(a[1..], k, v);
    }
  }

  lemma SetWellFormed(a: Array, k: string, v: Value)
    requires WellFormed(a)
    ensures WellFormed(Set(a, k, v))
    ensures Keys(Set(a, k, v)) == if HasKey(a, k) then Keys(a) else Keys(a) + [k]
  {
    var r := Set(a, k, v);
    if HasKey(a, k) {
      assert Keys(r) == Keys(a);
    } else {
      assert forall i :: 0 <= i < |a| ==> a[i].key != k;
      assert Keys(r) == Keys(a) + [k];
    }
  }

  /** `array_merge($a, $b)` on string keys: entries of b override a in place or are appended. */
  function Merge(a: Array, b: Array): Array
    decreases |b|
  {
    if |b| == 0 then a else Merge(Set(a, b[0].key, b[0].val), b[1..])
  }

  lemma HasKeyCons(b: Array, k: string)
    requires |b| > 0
    ensures HasKey(b, k) <==> b[0].key == k || HasKey(b[1..], k)
  {
    if HasKey(b, k) && b[0].key != k {
      var i :| 0 <= i < |b| && b[i].key == k;
      assert b[1..][i - 1].key == k;
    }
    if HasKey(b[1..], k) {
      var i :| 0 <= i < |b[1..]| && b[1..][i].key == k;
      assert b[i + 1].key == k;
    }
  }

  lemma {:induction false} MergeGet(a: Array, b: Array, k: string)
    requires WellFormed(b)
    ensures Get(Merge(a, b), k) == if HasKey(b, k) then Get(b, k) else Get(a, k)
    decreases |b|
  {
    if |b| > 0 {
      var a' := Set(a, b[0].key, b[0].val);
      MergeGet(a', b[1..], k);
      SetGet(a, b[0].key, b[0].val, k);
      HasKeyCons(b, k);
      if b[0].key == k {
        assert !HasKey(b[1..], k);
      }
    }
  }

  lemma {:induction false} MergeWellFormed(a: Array, b: Array)
    requires WellFormed(a)
    ensures WellFormed(Merge(a, b))
    decreases |b|
  {
    if |b| > 0 {
      SetWellFormed(a, b[0].key, b[0].val);
      MergeWellFormed(Set(a, b[0].key, b[0].val), b[1..]);
    }
  }

  /** `wp_parse_args($args, $defaults)`, which is `array_merge($defaults, $args)`. */
  function ParseArgs(args: Array, defaults: Array): (r: Array) {
    Merge(defaults, args)
  }

  /** Caller keys override defaults; keys the caller leaves out keep their default. */
  lemma ParseArgsGet(args: Array, defaults: Array, k: string)
    requires WellFormed(args)
    ensures Get(ParseArgs(args, defaults), k) == if HasKey(args, k) then Get(args, k) else Get(defaults, k)
  {
    MergeGet(defaults, args, k);
  }

  /** A value used as an array: its entries, or the empty array when it is not one. */
  function ArrOf(v: Value): Array {
    match v
    case Arr(es) => es
    case _ => []
  }

  /** The array value stored under k, or the empty array when it is not an array. */
  function GetArray(a: Array, k: string): Array {
    ArrOf(Get(a, k))
  }

  function GetStr(a: Array, k: string): string {
    ToStr(Get(a, k))
  }

  predicate TruthyAt(a: Array, k: string) {
    Truthy(Get(a, k))
  }

  /** `implode($sep, $pieces)`. */
  function Implode(sep: string, pieces: seq<string>): string {
    Join(pieces, sep)
  }
}
