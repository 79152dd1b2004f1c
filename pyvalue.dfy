/** The Python values that flow through the modelled code (JSON-like data),
 *  with the bits of Python semantics the code relies on: truthiness, `in`,
 *  ordering comparisons, hashability, `str()` and ASCII case mapping. */
module PyValue {
  import opened Wrappers

  /** A Python value. A dict maps hashable values to values; its insertion
   *  order is not kept, and keys compare structurally (so `1`, `1.0` and
   *  `True` are three different keys). */
  datatype Value =
    | VNone
    | VBool(b: bool)
    | VInt(i: int)
    | VFloat(r: real)
    | VStr(s: string)
    | VList(items: seq<Value>)
    | VDict(entries: map<Value, Value>)

  /** `bool(v)` */
  predicate Truthy(v: Value) {
    match v
    case VNone => false
    case VBool(b) => b
    case VInt(i) => i != 0
    case VFloat(r) => r != 0.0
    case VStr(s) => s != ""
    case VList(items) => items != []
    case VDict(entries) => entries != map[]
  }

  /** Lists and dicts cannot be dict keys or set members. */
  predicate Hashable(v: Value) {
    !v.VList? && !v.VDict?
  }

  /** `isinstance(v, (int, float))`; a bool is an int in Python. */
  predicate IsNumber(v: Value) {
    v.VBool? || v.VInt? || v.VFloat?
  }

  function NumberOf(v: Value): real
    requires IsNumber(v)
  {
    match v
    case VBool(b) => if b then 1.0 else 0.0
    case VInt(i) => i as real
    case VFloat(r) => r
  }

  /** `d.get(key, default)` for a string key */
  function Get(d: map<Value, Value>, key: string, default: Value): Value {
    if VStr(key) in d then d[VStr(key)] else default
  }

  /** `needle in hay` for two strings */
  predicate IsSubstring(needle: string, hay: string) {
    needle <= hay || (hay != [] && IsSubstring(needle, hay[1..]))
  }

  /** `item in container`: substring test on a string, element test on a list,
   *  key test on a dict; any other container raises TypeError. */
  function Contains(container: Value, item: Value): Result<bool> {
    match container
    case VStr(s) => if item.VStr? then Ok(IsSubstring(item.s, s)) else Err(TypeError)
    case VList(items) => Ok(item in items)
    case VDict(entries) => if Hashable(item) then Ok(item in entries) else Err(TypeError)
    case _ => Err(TypeError)
  }

  /** `len(v)` */
  function Len(v: Value): Result<nat> {
    match v
    case VStr(s) => Ok(|s|)
    case VList(items) => Ok(|items|)
    case VDict(entries) => Ok(|entries|)
    case _ => Err(TypeError)
  }

  /** `c.isspace()`: the characters Python treats as whitespace. */
  predicate IsSpace(c: char) {
    c == ' ' || '\t' <= c <= '\r' || '\U{1c}' <= c <= '\U{1f}' || c == '\U{0085}' || c == '\U{00a0}' ||
    c == '\U{1680}' || '\U{2000}' <= c <= '\U{200a}' || c == '\U{2028}' || c == '\U{2029}' ||
    c == '\U{202f}' || c == '\U{205f}' || c == '\U{3000}'
  }

  /** The length of the run of non-whitespace characters that starts `s`. */
  function RunLength(s: string): (n: nat)
    ensures n <= |s| && (n == |s| || IsSpace(s[n]))
    ensures forall k :: 0 <= k < n ==> !IsSpace(s[k])
  {
    if s == [] || IsSpace(s[0]) then 0 else 1 + RunLength(s[1..])
  }

  /** `s.split()`: the maximal runs of non-whitespace characters, in order. */
  function Words(s: string): (r: seq<string>)
    ensures forall k :: 0 <= k < |r| ==> r[k] != [] && forall c :: c in r[k] ==> !IsSpace(c)
    decreases |s|
  {
    if s == [] then []
    else if IsSpace(s[0]) then Words(s[1..])
    else
      var n := RunLength(s);
      [s[..n]] + Words(s[n..])
  }

  /** `a < b` on two strings: code-point lexicographic order */
  predicate StrLess(a: string, b: string) {
    if a == [] then b != []
    else if b == [] then false
    else if a[0] != b[0] then a[0] < b[0]
    else StrLess(a[1..], b[1..])
  }

  /** `a < b`: numbers compare numerically, strings and lists lexicographically;
   *  any other pairing raises TypeError. */
  function LessThan(a: Value, b: Value): Result<bool>
    decreases a, b
  {
    if IsNumber(a) && IsNumber(b) then Ok(NumberOf(a) < NumberOf(b))
    else if a.VStr? && b.VStr? then Ok(StrLess(a.s, b.s))
    else if a.VList? && b.VList? then ListLess(a.items, b.items)
    else Err(TypeError)
  }

  function ListLess(a: seq<Value>, b: seq<Value>): Result<bool>
    decreases a, b
  {
    if a == [] then Ok(b != [])
    else if b == [] then Ok(false)
    else if a[0] != b[0] then LessThan(a[0], b[0])
    else ListLess(a[1..], b[1..])
  }

  /** An ordering comparison raises nothing but TypeError, however deep in
   *  nested lists the incomparable pair sits. */
  lemma {:induction false} LessThanRaisesTypeError(a: Value, b: Value)
    ensures LessThan(a, b).Err? ==> LessThan(a, b).error == TypeError
    decreases a, b
  {
    if !(IsNumber(a) && IsNumber(b)) && !(a.VStr? && b.VStr?) && a.VList? && b.VList? {
      ListLessRaisesTypeError(a.items, b.items);
    }
  }

  lemma {:induction false} ListLessRaisesTypeError(a: seq<Value>, b: seq<Value>)
    ensures ListLess(a, b).Err? ==> ListLess(a, b).error == TypeError
    decreases a, b
  {
    if a != [] && b != [] {
      if a[0] != b[0] {
        LessThanRaisesTypeError(a[0], b[0]);
      } else {
        ListLessRaisesTypeError(a[1..], b[1..]);
      }
    }
  }

  /** `a >= b` */
  function AtLeast(a: Value, b: Value): Result<bool> {
    match LessThan(a, b)
    case Ok(less) => Ok(!less)
    case Err(e) => Err(e)
  }

  function LowerChar(c: char): char {
    if 'A' <= c <= 'Z' then (c as int + 32) as char else c
  }

  function UpperChar(c: char): char {
    if 'a' <= c <= 'z' then (c as int - 32) as char else c
  }

  /** `s.lower()` on ASCII letters */
  function Lower(s: string): (r: string)
    ensures |r| == |s|
    ensures forall i :: 0 <= i < |s| ==> r[i] == LowerChar(s[i])
  {
    seq(|s|, i requires 0 <= i < |s| => LowerChar(s[i]))
  }

  /** `s.capitalize()` on ASCII letters */
  function Capitalize(s: string): (r: string)
    ensures |r| == |s|
  {
    if s == [] then [] else [UpperChar(s[0])] + Lower(s[1..])
  }

  predicate IsAsciiDigit(c: char) {
    '0' <= c <= '9'
  }

  /** `s.isdigit()` on ASCII digits */
  predicate IsDigits(s: string) {
    s != [] && forall i :: 0 <= i < |s| ==> IsAsciiDigit(s[i])
  }

  function DigitChar(d: nat): char
    requires d < 10
  {
    "0123456789"[d]
  }

  function NatToString(n: nat): string
    decreases n
  {
    if n < 10 then [DigitChar(n)] else NatToString(n / 10) + [DigitChar(n % 10)]
  }

  function IntToString(i: int): string {
    if i < 0 then "-" + NatToString(-i) else NatToString(i)
  }

  /** `str(v)`: exact for None, bools, ints, strings and lists of those;
   *  floats and dicts are rendered by fixed placeholders. */
  function Str(v: Value): string
    decreases v, 1
  {
    match v
    case VNone => "None"
    case VBool(b) => if b then "True" else "False"
    case VInt(i) => IntToString(i)
    case VFloat(_) => "<float>"
    case VStr(s) => s
    case VList(items) => "[" + JoinRepr(items) + "]"
    case VDict(_) => "{...}"
  }

  /** `repr(v)` for a list element */
  function Repr(v: Value): string
    decreases v, 2
  {
    if v.VStr? then "'" + v.s + "'" else Str(v)
  }

  function JoinRepr(items: seq<Value>): string
    decreases items, 0
  {
    if items == [] then ""
    else if |items| == 1 then Repr(items[0])
    else Repr(items[0]) + ", " + JoinRepr(items[1..])
  }

  /** The integer a bool or int stands for, as a list index. */
  function IndexOf(v: Value): int
    requires v.VInt? || v.VBool?
  {
    if v.VInt? then v.i else if v.b then 1 else 0
  }

  /** `container[key] = item`: a dict takes any hashable key; a list takes an
   *  int index in range (negative counts from the end); anything else raises. */
  function SetItem(container: Value, key: Value, item: Value): (r: Result<Value>)
    ensures r.Ok? && container.VDict? ==> r.value == VDict(container.entries[key := item])
  {
    match container
    case VDict(m) => if Hashable(key) then Ok(VDict(m[key := item])) else Err(TypeError)
    case VList(items) =>
      if !(key.VInt? || key.VBool?) then Err(TypeError)
      else
        var i := IndexOf(key);
        if -|items| <= i < |items| then
          Ok(VList(items[(if i < 0 then i + |items| else i) := item]))
        else Err(IndexError)
    case _ => Err(TypeError)
  }

  /** `del container[key]` */
  function DelItem(container: Value, key: Value): (r: Result<Value>)
    ensures r.Ok? && container.VDict? ==> r.value == VDict(container.entries - {key})
  {
    match container
    case VDict(m) =>
      if !Hashable(key) then Err(TypeError)
      else if key in m then Ok(VDict(m - {key}))
      else Err(KeyError)
    case VList(items) =>
      if !(key.VInt? || key.VBool?) then Err(TypeError)
      else
        var i := IndexOf(key);
        if -|items| <= i < |items| then
          var j := if i < 0 then i + |items| else i;
          Ok(VList(items[..j] + items[j + 1..]))
        else Err(IndexError)
    case _ => Err(TypeError)
  }

  /** `container.get(key, default)`: only dicts have `get`. */
  function DictGet(container: Value, key: Value, default: Value): Result<Value> {
    match container
    case VDict(m) =>
      if !Hashable(key) then Err(TypeError)
      else Ok(if key in m then m[key] else default)
    case _ => Err(AttributeError)
  }

  /** `d[key]` on a dict */
  function Index(d: map<Value, Value>, key: string): Result<Value> {
    if VStr(key) in d then Ok(d[VStr(key)]) else Err(KeyError)
  }

  /** `container[key]`: a dict looks the key up, a list or a string takes an
   *  int index in range; anything else raises. */
  function GetItem(container: Value, key: Value): (r: Result<Value>)
    ensures r.Ok? && container.VDict? ==> key in container.entries && r.value == container.entries[key]
    ensures r.Err? && key.VStr? ==> r.error == KeyError || r.error == TypeError
  {
    match container
    case VDict(m) =>
      if !Hashable(key) then Err(TypeError)
      else if key in m then Ok(m[key])
      else Err(KeyError)
    case VList(items) =>
      if !(key.VInt? || key.VBool?) then Err(TypeError)
      else
        var i := IndexOf(key);
        if -|items| <= i < |items| then Ok(items[if i < 0 then i + |items| else i])
        else Err(IndexError)
    case VStr(s) =>
      if !(key.VInt? || key.VBool?) then Err(TypeError)
      else
        var i := IndexOf(key);
        if -|s| <= i < |s| then Ok(VStr([s[if i < 0 then i + |s| else i]]))
        else Err(IndexError)
    case _ => Err(TypeError)
  }

  /** An item stored with `container[key] = item` reads back with `container[key]`. */
  lemma SetThenGetItem(container: Value, key: Value, item: Value)
    requires SetItem(container, key, item).Ok?
    ensures GetItem(SetItem(container, key, item).value, key) == Ok(item)
  {
  }

  /** `xs[i]` on a Python list: negative indices count from the end. */
  function PyIndex<T>(xs: seq<T>, i: int): Result<T> {
    if -|xs| <= i < |xs| then Ok(xs[if i < 0 then i + |xs| else i]) else Err(IndexError)
  }

  /** `xs[:k]` on a Python list */
  function TakePrefix<T>(xs: seq<T>, k: int): (r: seq<T>)
    ensures 0 <= k <= |xs| ==> r == xs[..k]
    ensures k >= |xs| ==> r == xs
  {
    if k >= |xs| then xs
    else if k >= 0 then xs[..k]
    else if |xs| + k >= 0 then xs[..|xs| + k]
    else []
  }

  /** `order` is an iteration order of the dict `m`: every key exactly once. */
  predicate IsOrderOf(order: seq<Value>, m: map<Value, Value>) {
    (forall k :: k in order ==> k in m) && (forall k :: k in m ==> k in order) &&
    (forall i, j :: 0 <= i < j < |order| ==> order[i] != order[j])
  }

  /** `s.split(sep)` for a one-character separator. */
  function SplitOn(s: string, sep: char): (r: seq<string>)
    ensures |r| >= 1
  {
    if |s| == 0 then [""]
    else
      var rest := SplitOn(s[1..], sep);
      if s[0] == sep then [""] + rest else [[s[0]] + rest[0]] + rest[1..]
  }

  /** What a regular expression's `$` may match before: the text with at most
   *  one final newline dropped. */
  function BeforeFinalNewline(s: string): string {
    if |s| > 0 && s[|s| - 1] == '\n' then s[..|s| - 1] else s
  }
}
