/** The slice of the PHP runtime that the statement builder relies on:
    array keys and scalar values, ordered arrays with PHP's next-free-key
    counter, and the string functions the builder calls (implode, trim,
    strtoupper, addslashes, str_replace, is_numeric). */
module Php {

  datatype Option<T> = None | Some(value: T) {
    function GetOr(default: T): T {
      match this
      case Some(v) => v
      case None => default
    }
  }

  /** An array key after PHP's own canonicalisation: an integer key, or a
      string key (a decimal-integer string is always written as `Num`). */
  datatype Key = Num(n: int) | Name(s: string)

  /** The scalar values a statement carries. */
  datatype Val = Null | Bool(b: bool) | Int(i: int) | Str(s: string)

  datatype Entry<V> = Entry(key: Key, val: V)

  /** An ordered PHP array: its entries in insertion order and the key that
      `$a[] = v` uses next (one more than the largest integer key ever used,
      never lowered by `unset`). */
  datatype PArr<V> = PArr(entries: seq<Entry<V>>, next: int)

  // ---------------------------------------------------------------------
  // Ordered arrays

  function Empty<V>(): (a: PArr<V>)
    ensures Valid(a) && a.entries == []
  {
    PArr([], 0)
  }

  predicate UniqueKeys<V>(es: seq<Entry<V>>) {
    forall i, j :: 0 <= i < j < |es| ==> es[i].key != es[j].key
  }

  /** The array invariant PHP maintains: keys are unique and every integer
      key lies below the next free key. */
  predicate Valid<V>(a: PArr<V>) {
    && UniqueKeys(a.entries)
    && a.next >= 0
    && forall i :: 0 <= i < |a.entries| && a.entries[i].key.Num? ==> a.entries[i].key.n < a.next
  }

  function KeysOf<V>(es: seq<Entry<V>>): (ks: seq<Key>)
    ensures |ks| == |es|
    ensures forall i :: 0 <= i < |es| ==> ks[i] == es[i].key
  {
    seq(|es|, i requires 0 <= i < |es| => es[i].key)
  }

  function ValuesOf<V>(es: seq<Entry<V>>): (vs: seq<V>)
    ensures |vs| == |es|
    ensures forall i :: 0 <= i < |es| ==> vs[i] == es[i].val
  {
    seq(|es|, i requires 0 <= i < |es| => es[i].val)
  }

  /** The entries PHP builds for a list literal `[v0, v1, ...]`. */
  function Listed<V>(vs: seq<V>): (es: seq<Entry<V>>)
    ensures |es| == |vs|
    ensures forall i :: 0 <= i < |vs| ==> es[i] == Entry(Num(i), vs[i])
  {
    seq(|vs|, i requires 0 <= i < |vs| => Entry(Num(i), vs[i]))
  }

  /** `$a[$k]` (with `isset`): the value of the first entry with key `k`. */
  function Lookup<V>(es: seq<Entry<V>>, k: Key): Option<V> {
    if |es| == 0 then None
    else if es[0].key == k then Some(es[0].val)
    else Lookup(es[1..], k)
  }

  function Get<V>(a: PArr<V>, k: Key): Option<V> {
    Lookup(a.entries, k)
  }

  /** Overwrites the value of the first entry with key `k`, in place. */
  function Update<V>(es: seq<Entry<V>>, k: Key, v: V): seq<Entry<V>> {
    if |es| == 0 then []
    else if es[0].key == k then [Entry(k, v)] + es[1..]
    else [es[0]] + Update(es[1..], k, v)
  }

  /** Drops every entry with key `k`. */
  function Remove<V>(es: seq<Entry<V>>, k: Key): seq<Entry<V>> {
    if |es| == 0 then []
    else if es[0].key == k then Remove(es[1..], k)
    else [es[0]] + Remove(es[1..], k)
  }

  function Bump(next: int, k: Key): int {
    if k.Num? && k.n >= next then k.n + 1 else next
  }

  /** `$a[$k] = $v`: an existing key keeps its position, a new key is appended. */
  function Put<V>(a: PArr<V>, k: Key, v: V): PArr<V> {
    if Lookup(a.entries, k).Some? then a.(entries := Update(a.entries, k, v))
    else PArr(a.entries + [Entry(k, v)], Bump(a.next, k))
  }

  /** `$a[] = $v`. */
  function Push<V>(a: PArr<V>, v: V): PArr<V> {
    PArr(a.entries + [Entry(Num(a.next), v)], a.next + 1)
  }

  /** `unset($a[$k])`: the counter is left as it is. */
  function Unset<V>(a: PArr<V>, k: Key): PArr<V> {
    a.(entries := Remove(a.entries, k))
  }

  lemma {:induction false} LookupFound<V>(es: seq<Entry<V>>, k: Key)
    ensures Lookup(es, k).Some? <==> exists i :: 0 <= i < |es| && es[i].key == k
  {
    if |es| > 0 && es[0].key != k {
      LookupFound(es[1..], k);
      if exists i :: 0 <= i < |es| && es[i].key == k {
        var i :| 0 <= i < |es| && es[i].key == k;
        assert es[1..][i - 1].key == k;
      }
    }
  }

  /** A key that is found is found together with its value. */
  lemma {:induction false} LookupEntry<V>(es: seq<Entry<V>>, k: Key)
    requires Lookup(es, k).Some?
    ensures exists i :: 0 <= i < |es| && es[i] == Entry(k, Lookup(es, k).value)
  {
    if es[0].key != k {
      LookupEntry(es[1..], k);
      var i :| 0 <= i < |es[1..]| && es[1..][i] == Entry(k, Lookup(es[1..], k).value);
      assert es[i + 1] == es[1..][i];
    } else {
      assert es[0] == Entry(k, Lookup(es, k).value);
    }
  }

  lemma {:induction false} LookupAt<V>(es: seq<Entry<V>>, i: int)
    requires UniqueKeys(es) && 0 <= i < |es|
    ensures Lookup(es, es[i].key) == Some(es[i].val)
  {
    if i > 0 {
      assert es[0].key != es[i].key;
      LookupAt(es[1..], i - 1);
    }
  }

  lemma {:induction false} UpdateKeys<V>(es: seq<Entry<V>>, k: Key, v: V)
    ensures |Update(es, k, v)| == |es|
    ensures forall i :: 0 <= i < |es| ==> Update(es, k, v)[i].key == es[i].key
  {
    if |es| > 0 && es[0].key != k {
      UpdateKeys(es[1..], k, v);
      assert Update(es, k, v)[1..] == Update(es[1..], k, v);
    }
  }

  lemma {:induction false} UpdateLookup<V>(es: seq<Entry<V>>, k: Key, v: V)
    ensures Lookup(Update(es, k, v), k) == if Lookup(es, k).Some? then Some(v) else None
    ensures forall k' :: k' != k ==> Lookup(Update(es, k, v), k') == Lookup(es, k')
  {
    if |es| > 0 && es[0].key != k {
      UpdateLookup(es[1..], k, v);
      assert Update(es, k, v)[1..] == Update(es[1..], k, v);
    } else if |es| > 0 {
      assert Update(es, k, v)[1..] == es[1..];
    }
  }

  lemma UpdateShape<V>(es: seq<Entry<V>>, k: Key, v: V)
    ensures |Update(es, k, v)| == |es|
    ensures KeysOf(Update(es, k, v)) == KeysOf(es)
    ensures Lookup(Update(es, k, v), k) == if Lookup(es, k).Some? then Some(v) else None
    ensures forall k' :: k' != k ==> Lookup(Update(es, k, v), k') == Lookup(es, k')
  {
    UpdateKeys(es, k, v);
    UpdateLookup(es, k, v);
  }

  lemma {:induction false} RemoveShape<V>(es: seq<Entry<V>>, k: Key)
    ensures Lookup(Remove(es, k), k) == None
    ensures forall k' :: k' != k ==> Lookup(Remove(es, k), k') == Lookup(es, k')
    ensures forall e :: e in Remove(es, k) ==> e in es
  {
    if |es| > 0 {
      RemoveShape(es[1..], k);
      if es[0].key != k {
        assert Remove(es, k)[1..] == Remove(es[1..], k);
      }
    }
  }

  lemma UniqueWhenKeysEqual<V, W>(es: seq<Entry<V>>, fs: seq<Entry<W>>)
    requires UniqueKeys(es) && KeysOf(es) == KeysOf(fs)
    ensures UniqueKeys(fs)
  {
    forall i, j | 0 <= i < j < |fs| ensures fs[i].key != fs[j].key {
      assert KeysOf(es)[i] == fs[i].key && KeysOf(es)[j] == fs[j].key;
    }
  }

  lemma {:induction false} RemoveUnique<V>(es: seq<Entry<V>>, k: Key)
    requires UniqueKeys(es)
    ensures UniqueKeys(Remove(es, k))
  {
    if |es| > 0 {
      RemoveUnique(es[1..], k);
      RemoveShape(es[1..], k);
      if es[0].key != k {
        var r := Remove(es, k);
        assert r == [es[0]] + Remove(es[1..], k);
        forall j | 0 < j < |r| ensures r[0].key != r[j].key {
          assert r[j] in Remove(es[1..], k);
          var m :| 0 <= m < |es[1..]| && es[1..][m] == r[j];
          assert es[m + 1] == r[j];
        }
      }
    }
  }

  /** A key that is found comes from an entry holding that value. */
  lemma {:induction false} LookupIn<V>(es: seq<Entry<V>>, k: Key)
    ensures Lookup(es, k).Some? ==> Entry(k, Lookup(es, k).value) in es
  {
    if |es| > 0 && es[0].key != k {
      LookupIn(es[1..], k);
    }
  }

  lemma {:induction false} UpdateEntries<V>(es: seq<Entry<V>>, k: Key, v: V)
    ensures forall e :: e in Update(es, k, v) ==> e in es || e == Entry(k, v)
  {
    if |es| > 0 && es[0].key != k {
      UpdateEntries(es[1..], k, v);
    }
  }

  /** Every entry after a write is an old entry or the written one. */
  lemma PutEntries<V>(a: PArr<V>, k: Key, v: V)
    ensures forall e :: e in Put(a, k, v).entries ==> e in a.entries || e == Entry(k, v)
  {
    UpdateEntries(a.entries, k, v);
  }

  /** Writing a key gives the new value back, and leaves every other key alone. */
  lemma PutGet<V>(a: PArr<V>, k: Key, v: V)
    ensures Get(Put(a, k, v), k) == Some(v)
    ensures forall k' :: k' != k ==> Get(Put(a, k, v), k') == Get(a, k')
  {
    if Lookup(a.entries, k).Some? {
      UpdateShape(a.entries, k, v);
    } else {
      LookupAppend(a.entries, Entry(k, v));
    }
  }

  lemma {:induction false} LookupAppend<V>(es: seq<Entry<V>>, e: Entry<V>)
    ensures forall k :: Lookup(es + [e], k) == if Lookup(es, k).Some? then Lookup(es, k) else if e.key == k then Some(e.val) else None
  {
    if |es| > 0 {
      LookupAppend(es[1..], e);
      assert (es + [e])[1..] == es[1..] + [e];
    }
  }

  /** `$a[$k] = $v` on an existing key keeps every key where it was; on a new
      key it appends one entry at the end. */
  lemma PutPosition<V>(a: PArr<V>, k: Key, v: V)
    ensures Get(a, k).Some? ==> KeysOf(Put(a, k, v).entries) == KeysOf(a.entries)
    ensures Get(a, k).None? ==> Put(a, k, v).entries == a.entries + [Entry(k, v)]
  {
    if Get(a, k).Some? {
      UpdateShape(a.entries, k, v);
    }
  }

  /** Every write keeps the array well formed. */
  lemma PutValid<V>(a: PArr<V>, k: Key, v: V)
    requires Valid(a)
    ensures Valid(Put(a, k, v))
  {
    var b := Put(a, k, v);
    if Lookup(a.entries, k).Some? {
      UpdateShape(a.entries, k, v);
      UniqueWhenKeysEqual(a.entries, b.entries);
      forall i | 0 <= i < |b.entries| && b.entries[i].key.Num? ensures b.entries[i].key.n < b.next {
        assert KeysOf(b.entries)[i] == KeysOf(a.entries)[i];
      }
    } else {
      LookupFound(a.entries, k);
    }
  }

  /** `$a[] = $v` stores the value under the counter's key and advances it. */
  lemma PushValid<V>(a: PArr<V>, v: V)
    requires Valid(a)
    ensures Valid(Push(a, v))
    ensures Get(a, Num(a.next)).None?
    ensures Get(Push(a, v), Num(a.next)) == Some(v)
    ensures forall k' :: k' != Num(a.next) ==> Get(Push(a, v), k') == Get(a, k')
  {
    LookupFound(a.entries, Num(a.next));
    LookupAppend(a.entries, Entry(Num(a.next), v));
  }

  /** `unset` removes exactly the one key and keeps the array well formed. */
  lemma UnsetValid<V>(a: PArr<V>, k: Key)
    requires Valid(a)
    ensures Valid(Unset(a, k))
    ensures Get(Unset(a, k), k).None?
    ensures forall k' :: k' != k ==> Get(Unset(a, k), k') == Get(a, k')
  {
    RemoveShape(a.entries, k);
    RemoveUnique(a.entries, k);
    var b := Unset(a, k);
    forall i | 0 <= i < |b.entries| && b.entries[i].key.Num? ensures b.entries[i].key.n < b.next {
      assert b.entries[i] in a.entries;
    }
  }

  // ---------------------------------------------------------------------
  // Strings

  /** PHP's truthiness of a string: "" and "0" are false. */
  predicate Truthy(s: string) {
    s != "" && s != "0"
  }

  /** PHP's truthiness of a scalar. */
  predicate ValTruthy(v: Val) {
    match v
    case Null => false
    case Bool(b) => b
    case Int(i) => i != 0
    case Str(s) => Truthy(s)
  }

  /** implode($sep, $xs). */
  function Join(sep: string, xs: seq<string>): string {
    if |xs| == 0 then ""
    else if |xs| == 1 then xs[0]
    else xs[0] + sep + Join(sep, xs[1..])
  }

  lemma JoinTwo(sep: string, a: string, b: string)
    ensures Join(sep, [a, b]) == a + sep + b
  {
    assert [a, b][1..] == [b];
  }

  lemma {:induction false} JoinSnoc(sep: string, xs: seq<string>, x: string)
    requires |xs| > 0
    ensures Join(sep, xs + [x]) == Join(sep, xs) + sep + x
  {
    if |xs| > 1 {
      assert (xs + [x])[1..] == xs[1..] + [x];
      JoinSnoc(sep, xs[1..], x);
    }
  }

  /** Each element of a joined list occurs in the result. */
  lemma {:induction false} JoinContains(sep: string, xs: seq<string>, i: int)
    requires 0 <= i < |xs|
    ensures Occurs(xs[i], Join(sep, xs))
  {
    if |xs| == 1 {
      OccursIn("", xs[0], "");
      assert "" + xs[0] + "" == xs[0];
    } else if i == 0 {
      OccursIn("", xs[0], sep + Join(sep, xs[1..]));
      assert xs[0] + sep + Join(sep, xs[1..]) == "" + xs[0] + (sep + Join(sep, xs[1..]));
    } else {
      JoinContains(sep, xs[1..], i - 1);
      OccursWiden(xs[i], xs[0] + sep, Join(sep, xs[1..]), "");
      assert xs[0] + sep + Join(sep, xs[1..]) == (xs[0] + sep) + Join(sep, xs[1..]) + "";
    }
  }

  /** `s` ends with `suffix`. */
  predicate EndsWith(s: string, suffix: string) {
    |suffix| <= |s| && s[|s| - |suffix|..] == suffix
  }

  /** `needle` occurs as a contiguous piece of `hay`. */
  ghost predicate Occurs(needle: string, hay: string) {
    exists i :: OccursAt(needle, hay, i)
  }

  predicate OccursAt(needle: string, hay: string, i: int) {
    0 <= i <= |hay| - |needle| && hay[i..i + |needle|] == needle
  }

  lemma OccursIn(x: string, needle: string, y: string)
    ensures Occurs(needle, x + needle + y)
  {
    var h := x + needle + y;
    assert h[|x|..|x| + |needle|] == needle;
    assert OccursAt(needle, h, |x|);
  }

  lemma OccursWiden(needle: string, x: string, mid: string, y: string)
    requires Occurs(needle, mid)
    ensures Occurs(needle, x + mid + y)
  {
    var i :| OccursAt(needle, mid, i);
    var h := x + mid + y;
    assert h[|x| + i..|x| + i + |needle|] == mid[i..i + |needle|];
    assert OccursAt(needle, h, |x| + i);
  }

  lemma OccursLeft(needle: string, x: string, y: string)
    requires Occurs(needle, x)
    ensures Occurs(needle, x + y)
  {
    OccursWiden(needle, "", x, y);
    assert "" + x + y == x + y;
  }

  lemma OccursRight(needle: string, x: string, y: string)
    requires Occurs(needle, y)
    ensures Occurs(needle, x + y)
  {
    OccursWiden(needle, x, y, "");
    assert x + y + "" == x + y;
  }

  /** An element of a joined list occurs in any text built around the join. */
  lemma OccursJoined(sep: string, xs: seq<string>, i: int, front: string, back: string)
    requires 0 <= i < |xs|
    ensures Occurs(xs[i], front + Join(sep, xs) + back)
  {
    JoinContains(sep, xs, i);
    OccursWiden(xs[i], front, Join(sep, xs), back);
  }

  /** A text ends with the two pieces appended to it last. */
  lemma EndsWithTwo(x: string, a: string, b: string)
    ensures EndsWith(x + a + b, a + b)
  {
    assert (x + a + b)[|x|..] == a + b;
  }

  /** A text begins with its first piece. */
  lemma OccursFront(x: string, y: string)
    ensures Occurs(x, x + y)
  {
    assert (x + y)[..|x|] == x;
    assert OccursAt(x, x + y, 0);
  }

  /** A text ends with the piece appended to it last. */
  lemma EndsWithLast(x: string, s: string)
    ensures EndsWith(x + s, s)
  {
    assert (x + s)[|x|..] == s;
  }

  /** A piece of a piece of `c` is a piece of `c`. */
  lemma OccursTrans(a: string, b: string, c: string)
    requires Occurs(a, b) && Occurs(b, c)
    ensures Occurs(a, c)
  {
    var i :| OccursAt(a, b, i);
    var j :| OccursAt(b, c, j);
    assert c[j..j + |b|] == b;
    forall t | 0 <= t < |a| ensures c[j + i..j + i + |a|][t] == a[t] {
      assert c[j + i + t] == c[j..j + |b|][i + t] == b[i + t] == b[i..i + |a|][t];
    }
    assert c[j + i..j + i + |a|] == a;
    assert OccursAt(a, c, j + i);
  }

  function DigitChar(d: int): char
    requires 0 <= d < 10
  {
    "0123456789"[d]
  }

  function NatToString(n: nat): string
    decreases n
  {
    if n < 10 then [DigitChar(n)] else NatToString(n / 10) + [DigitChar(n % 10)]
  }

  /** PHP's decimal rendering of an integer. */
  function IntToString(n: int): string {
    if n < 0 then "-" + NatToString(-n) else NatToString(n)
  }

  predicate IsDigit(c: char) {
    '0' <= c <= '9'
  }

  predicate AllDigits(s: string) {
    forall i :: 0 <= i < |s| ==> IsDigit(s[i])
  }

  lemma {:induction false} NatToStringDigits(n: nat)
    ensures |NatToString(n)| > 0 && AllDigits(NatToString(n))
    decreases n
  {
    if n >= 10 {
      NatToStringDigits(n / 10);
    }
  }

  /** Distinct numbers have distinct decimal renderings. */
  lemma {:induction false} NatToStringInjective(a: nat, b: nat)
    requires NatToString(a) == NatToString(b)
    ensures a == b
    decreases a
  {
    if a >= 10 && b >= 10 {
      NatToStringDigits(a / 10);
      var s := NatToString(a);
      assert s[..|s| - 1] == NatToString(a / 10);
      assert NatToString(b)[..|s| - 1] == NatToString(b / 10);
      NatToStringInjective(a / 10, b / 10);
      assert "0123456789"[a % 10] == "0123456789"[b % 10];
    } else if a >= 10 {
      NatToStringDigits(a / 10);
    } else if b >= 10 {
      NatToStringDigits(b / 10);
    } else {
      assert "0123456789"[a] == "0123456789"[b];
    }
  }

  /** The key string PHP uses for a key in string context. */
  function KeyString(k: Key): string {
    match k
    case Num(n) => IntToString(n)
    case Name(s) => s
  }

  /** PHP's string conversion of a scalar. */
  function ValString(v: Val): string {
    match v
    case Null => ""
    case Bool(b) => if b then "1" else ""
    case Int(i) => IntToString(i)
    case Str(s) => s
  }

  /** The white space `is_numeric` skips (" \t\n\r\v\f"). */
  const NumericSpace: set<char> := {' ', '\t', '\n', '\r', '\U{B}', '\U{C}'}

  /** The characters `trim` strips by default (" \t\n\r\0\x0B"). */
  const TrimSpace: set<char> := {' ', '\t', '\n', '\r', '\0', '\U{B}'}

  function TrimLeft(s: string, cs: set<char>): (r: string)
    ensures |r| <= |s|
  {
    if |s| > 0 && s[0] in cs then TrimLeft(s[1..], cs) else s
  }

  function TrimRight(s: string, cs: set<char>): (r: string)
    ensures |r| <= |s|
  {
    if |s| > 0 && s[|s| - 1] in cs then TrimRight(s[..|s| - 1], cs) else s
  }

  /** trim($s) with a given character set. */
  function Trim(s: string, cs: set<char>): string {
    TrimRight(TrimLeft(s, cs), cs)
  }

  /** strpos($s, $c) when found, else |s|. */
  function IndexOf(s: string, c: char): (i: nat)
    ensures i <= |s|
    ensures i < |s| ==> s[i] == c
    ensures forall j :: 0 <= j < i ==> s[j] != c
  {
    if |s| == 0 then 0 else if s[0] == c then 0 else 1 + IndexOf(s[1..], c)
  }

  function IndexOfExponent(s: string): (i: nat)
    ensures i <= |s|
  {
    var a := IndexOf(s, 'e');
    var b := IndexOf(s, 'E');
    if a < b then a else b
  }

  /** Digits, an optional decimal point and digits, with at least one digit. */
  predicate IsMantissa(m: string) {
    var d := IndexOf(m, '.');
    if d == |m| then |m| > 0 && AllDigits(m)
    else AllDigits(m[..d]) && AllDigits(m[d + 1..]) && |m| > 1
  }

  predicate IsExponent(x: string) {
    var y := if |x| > 0 && (x[0] == '+' || x[0] == '-') then x[1..] else x;
    |y| > 0 && AllDigits(y)
  }

  predicate NumericShape(s: string) {
    var t := Trim(s, NumericSpace);
    var u := if |t| > 0 && (t[0] == '+' || t[0] == '-') then t[1..] else t;
    var e := IndexOfExponent(u);
    IsMantissa(u[..e]) && (e == |u| || IsExponent(u[e + 1..]))
  }

  /** The characters a numeric string can hold. */
  predicate NumericChar(c: char) {
    IsDigit(c) || c == '+' || c == '-' || c == '.' || c == 'e' || c == 'E' || c in NumericSpace
  }

  /** is_numeric($s), the decimal grammar of PHP 8: optional white space, an
      optional sign, a decimal number with an optional exponent, optional
      white space. The first conjunct (only such characters) follows from the
      second and is spelled out for the benefit of proofs. */
  predicate IsNumeric(s: string) {
    NumericAlphabet(s) && NumericShape(s)
  }

  predicate NumericAlphabet(s: string) {
    forall i :: 0 <= i < |s| ==> NumericChar(s[i])
  }

  /** is_numeric of a scalar: integers always, strings by their text. */
  predicate ValIsNumeric(v: Val) {
    match v
    case Int(_) => true
    case Str(s) => IsNumeric(s)
    case _ => false
  }

  /** is_numeric of an array key. */
  predicate KeyIsNumeric(k: Key) {
    k.Num? || IsNumeric(k.s)
  }

  lemma {:induction false} AllDigitsNoChar(s: string, c: char)
    requires AllDigits(s) && !IsDigit(c)
    ensures IndexOf(s, c) == |s|
  {
    if |s| > 0 {
      AllDigitsNoChar(s[1..], c);
    }
  }

  lemma TrimUnchanged(s: string, cs: set<char>)
    requires |s| > 0 ==> s[0] !in cs && s[|s| - 1] !in cs
    ensures Trim(s, cs) == s
  {
  }

  lemma DigitsShape(d: string)
    requires |d| > 0 && AllDigits(d)
    ensures IndexOfExponent(d) == |d| && IsMantissa(d[..IndexOfExponent(d)])
  {
    AllDigitsNoChar(d, 'e');
    AllDigitsNoChar(d, 'E');
    AllDigitsNoChar(d, '.');
    assert d[..|d|] == d;
  }

  lemma {:induction false} DigitsNumeric(d: string)
    requires |d| > 0 && AllDigits(d)
    ensures NumericShape(d) && NumericShape("-" + d)
  {
    TrimUnchanged(d, NumericSpace);
    DigitsShape(d);
    var m := "-" + d;
    assert m[|m| - 1] == d[|d| - 1];
    TrimUnchanged(m, NumericSpace);
    assert m[1..] == d;
  }

  /** Every decimal rendering of an integer is numeric, so it is printed bare. */
  lemma IntToStringNumeric(n: int)
    ensures IsNumeric(IntToString(n))
    ensures forall i :: 0 <= i < |IntToString(n)| ==> IsDigit(IntToString(n)[i]) || IntToString(n)[i] == '-'
  {
    var m: nat := if n < 0 then -n else n;
    NatToStringDigits(m);
    var d := NatToString(m);
    DigitsNumeric(d);
    var s := IntToString(n);
    forall i | 0 <= i < |s| ensures IsDigit(s[i]) || s[i] == '-' {
      if n >= 0 {
        assert s[i] == d[i];
      } else if i > 0 {
        assert s[i] == d[i - 1];
      }
    }
  }

  /** A string holding a character outside the numeric alphabet is never numeric. */
  lemma NotNumeric(s: string, i: int)
    requires 0 <= i < |s| && !NumericChar(s[i])
    ensures !IsNumeric(s)
  {
  }

  /** strtoupper on ASCII letters. */
  function UpperChar(c: char): char {
    if 'a' <= c <= 'z' then (c as int - 32) as char else c
  }

  function Upper(s: string): (r: string)
    ensures |r| == |s|
    ensures forall i :: 0 <= i < |s| ==> r[i] == UpperChar(s[i])
  {
    seq(|s|, i requires 0 <= i < |s| => UpperChar(s[i]))
  }

  lemma UpperOfUpper(s: string)
    requires forall i :: 0 <= i < |s| ==> !('a' <= s[i] <= 'z')
    ensures Upper(s) == s
  {
  }

  /** The characters addslashes() escapes. */
  predicate NeedsSlash(c: char) {
    c == '\'' || c == '"' || c == '\\' || c == '\0'
  }

  /** addslashes($s): a backslash before ', " and \, and NUL written as \0. */
  function AddSlashes(s: string): string {
    if |s| == 0 then ""
    else (if s[0] == '\0' then "\\0" else if NeedsSlash(s[0]) then ['\\', s[0]] else [s[0]]) + AddSlashes(s[1..])
  }

  /** stripslashes($s), the inverse PHP ships for addslashes. */
  function StripSlashes(s: string): string
    decreases |s|
  {
    if |s| == 0 then ""
    else if s[0] == '\\' then
      if |s| == 1 then "" else [if s[1] == '0' then '\0' else s[1]] + StripSlashes(s[2..])
    else [s[0]] + StripSlashes(s[1..])
  }

  /** addslashes loses nothing: stripslashes undoes it. */
  lemma {:induction false} StripAddSlashes(s: string)
    ensures StripSlashes(AddSlashes(s)) == s
  {
    if |s| > 0 {
      StripAddSlashes(s[1..]);
      var head := if s[0] == '\0' then "\\0" else if NeedsSlash(s[0]) then ['\\', s[0]] else [s[0]];
      var t := head + AddSlashes(s[1..]);
      assert AddSlashes(s) == t;
      if |head| == 2 {
        assert t[2..] == AddSlashes(s[1..]);
      } else {
        assert t[1..] == AddSlashes(s[1..]);
      }
    }
  }

  /** A string without quotes, backslashes or NUL passes addslashes unchanged. */
  lemma {:induction false} AddSlashesPlain(s: string)
    requires forall i :: 0 <= i < |s| ==> !NeedsSlash(s[i])
    ensures AddSlashes(s) == s
  {
    if |s| > 0 {
      AddSlashesPlain(s[1..]);
    }
  }

  /** A character that addslashes escapes leaves a backslash in its output. */
  lemma {:induction false} AddSlashesMarks(s: string, i: int)
    requires 0 <= i < |s| && NeedsSlash(s[i])
    ensures '\\' in AddSlashes(s)
  {
    var head := if s[0] == '\0' then "\\0" else if NeedsSlash(s[0]) then ['\\', s[0]] else [s[0]];
    assert AddSlashes(s) == head + AddSlashes(s[1..]);
    if i == 0 {
      assert AddSlashes(s)[0] == '\\';
    } else {
      AddSlashesMarks(s[1..], i - 1);
      var j :| 0 <= j < |AddSlashes(s[1..])| && AddSlashes(s[1..])[j] == '\\';
      assert AddSlashes(s)[|head| + j] == '\\';
    }
  }

  /** str_replace($needle, $repl, $s): every non-overlapping occurrence, left to right. */
  function Replace(needle: string, repl: string, s: string): string
    decreases |s|
  {
    if |needle| == 0 || |s| < |needle| then s
    else if s[..|needle|] == needle then repl + Replace(needle, repl, s[|needle|..])
    else [s[0]] + Replace(needle, repl, s[1..])
  }

  /** A needle that does not occur leaves the text unchanged. */
  lemma {:induction false} ReplaceAbsent(needle: string, repl: string, s: string)
    requires !Occurs(needle, s)
    ensures Replace(needle, repl, s) == s
    decreases |s|
  {
    if |needle| > 0 && |s| >= |needle| {
      assert !OccursAt(needle, s, 0);
      assert s[0..|needle|] == s[..|needle|];
      forall i | 0 <= i <= |s[1..]| - |needle| ensures !OccursAt(needle, s[1..], i) {
        assert s[1..][i..i + |needle|] == s[i + 1..i + 1 + |needle|];
        assert !OccursAt(needle, s, i + 1);
      }
      ReplaceAbsent(needle, repl, s[1..]);
      assert [s[0]] + s[1..] == s;
    }
  }
}
