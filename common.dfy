/**
 * Building blocks shared by every part of the model: an Option type, the
 * character classes the dashboard's regular expressions and string methods
 * use, JavaScript's `trim`, `includes`, `join`, `String(n)` and `parseInt`,
 * and JavaScript objects as insertion-ordered records.
 */
module Common {

  datatype Option<T> = None | Some(value: T)

  // ---------------------------------------------------------------------
  // Characters
  // ---------------------------------------------------------------------

  /** `\d` in a JavaScript regular expression: the ASCII digits only. */
  predicate IsDigit(c: char) { '0' <= c <= '9' }

  predicate IsUpper(c: char) { 'A' <= c <= 'Z' }

  predicate IsLower(c: char) { 'a' <= c <= 'z' }

  /** `[A-Za-z]` */
  predicate IsLetter(c: char) { IsUpper(c) || IsLower(c) }

  /** `[A-Za-z0-9]` */
  predicate IsAlnum(c: char) { IsLetter(c) || IsDigit(c) }

  /**
   * `\s`, and what `String.prototype.trim` removes: the ECMAScript
   * WhiteSpace and LineTerminator code points.
   */
  predicate IsSpace(c: char)
  {
    var n := c as int;
    n == 0x09 || n == 0x0A || n == 0x0B || n == 0x0C || n == 0x0D || n == 0x20 ||
    n == 0xA0 || n == 0x1680 || (0x2000 <= n <= 0x200A) || n == 0x2028 ||
    n == 0x2029 || n == 0x202F || n == 0x205F || n == 0x3000 || n == 0xFEFF
  }

  function ToUpper(c: char): (u: char)
    ensures IsLower(c) ==> IsUpper(u)
    ensures !IsLower(c) ==> u == c
  {
    if IsLower(c) then (c as int - 32) as char else c
  }

  function ToLower(c: char): (l: char)
    ensures IsUpper(c) ==> IsLower(l)
    ensures !IsUpper(c) ==> l == c
  {
    if IsUpper(c) then (c as int + 32) as char else c
  }

  function DigitChar(d: nat): char
    requires d < 10
  {
    ('0' as int + d) as char
  }

  function DigitValue(c: char): nat
    requires IsDigit(c)
  {
    c as int - '0' as int
  }

  // ---------------------------------------------------------------------
  // Strings
  // ---------------------------------------------------------------------

  function Upper(s: string): string
  {
    seq(|s|, i requires 0 <= i < |s| => ToUpper(s[i]))
  }

  function Lower(s: string): string
  {
    seq(|s|, i requires 0 <= i < |s| => ToLower(s[i]))
  }

  /** The characters of `s` that satisfy `keep`, in order (`replace(/[^…]/g, '')`). */
  function KeepChars(s: string, keep: char -> bool): (r: string)
    ensures |r| <= |s|
    ensures forall i :: 0 <= i < |r| ==> keep(r[i])
  {
    if s == [] then []
    else (if keep(s[0]) then [s[0]] else []) + KeepChars(s[1..], keep)
  }

  /** Each kept character occurs as often as in `s`; every other occurs not at all. */
  lemma {:induction false} KeepCharsCounts(s: string, keep: char -> bool)
    ensures forall c :: multiset(KeepChars(s, keep))[c] == if keep(c) then multiset(s)[c] else 0
  {
    if s != [] {
      assert s == [s[0]] + s[1..];
      KeepCharsCounts(s[1..], keep);
    }
  }

  lemma KeepCharsAppend(s: string, t: string, keep: char -> bool)
    ensures KeepChars(s + t, keep) == KeepChars(s, keep) + KeepChars(t, keep)
  {
    if s == [] {
      assert s + t == t;
    } else {
      var head := if keep(s[0]) then [s[0]] else [];
      assert (s + t)[0] == s[0] && (s + t)[1..] == s[1..] + t;
      KeepCharsAppend(s[1..], t, keep);
      calc {
        KeepChars(s + t, keep);
        head + KeepChars(s[1..] + t, keep);
        head + (KeepChars(s[1..], keep) + KeepChars(t, keep));
        (head + KeepChars(s[1..], keep)) + KeepChars(t, keep);
      }
    }
  }

  /** Keeping every character of `s` leaves it unchanged. */
  lemma {:induction false} KeepAll(s: string, keep: char -> bool)
    requires forall i :: 0 <= i < |s| ==> keep(s[i])
    ensures KeepChars(s, keep) == s
  {
    if s != [] {
      KeepAll(s[1..], keep);
    }
  }

  lemma KeepNone(s: string, keep: char -> bool)
    requires forall i :: 0 <= i < |s| ==> !keep(s[i])
    ensures KeepChars(s, keep) == []
  {
  }

  /** Dropping a separator that is not kept joins what is kept on either side. */
  lemma DropSeparator(x: string, sep: char, y: string, keep: char -> bool)
    requires !keep(sep)
    ensures KeepChars(x + [sep] + y, keep) == KeepChars(x, keep) + KeepChars(y, keep)
  {
    KeepCharsAppend(x + [sep], y, keep);
    KeepCharsAppend(x, [sep], keep);
    assert KeepChars([sep], keep) == [] by { KeepNone([sep], keep); }
  }

  /** `String.prototype.trimStart` */
  function TrimStart(s: string): (r: string)
    ensures |r| <= |s| && r == s[|s| - |r|..]
    ensures r == [] || !IsSpace(r[0])
    ensures forall i :: 0 <= i < |s| - |r| ==> IsSpace(s[i])
  {
    if s != [] && IsSpace(s[0]) then TrimStart(s[1..]) else s
  }

  /** `String.prototype.trimEnd` */
  function TrimEnd(s: string): (r: string)
    ensures |r| <= |s| && r == s[..|r|]
    ensures r == [] || !IsSpace(r[|r| - 1])
    ensures forall i :: |r| <= i < |s| ==> IsSpace(s[i])
  {
    if s != [] && IsSpace(s[|s| - 1]) then TrimEnd(s[..|s| - 1]) else s
  }

  /** `String.prototype.trim` */
  function Trim(s: string): string
  {
    TrimEnd(TrimStart(s))
  }

  /** `!s || s.trim() === ''`: empty or made of white space only. */
  predicate IsBlank(s: string)
  {
    Trim(s) == []
  }

  lemma BlankIffAllSpace(s: string)
    ensures IsBlank(s) <==> forall i :: 0 <= i < |s| ==> IsSpace(s[i])
  {
    var t := TrimStart(s);
    if t != [] {
      assert !IsSpace(t[0]) && t[0] == s[|s| - |t|];
    }
  }

  predicate StartsWith(s: string, prefix: string)
  {
    |prefix| <= |s| && s[..|prefix|] == prefix
  }

  /** `String.prototype.includes` */
  predicate Contains(s: string, sub: string)
    decreases |s|
  {
    StartsWith(s, sub) || (s != [] && Contains(s[1..], sub))
  }

  /** `sub` occurs in `s` at index `i`. */
  predicate OccursAt(s: string, sub: string, i: int)
  {
    0 <= i <= |s| - |sub| && s[i..i + |sub|] == sub
  }

  lemma {:induction false} ContainsIffOccurs(s: string, sub: string)
    ensures Contains(s, sub) <==> exists i :: OccursAt(s, sub, i)
    decreases |s|
  {
    if Contains(s, sub) {
      if StartsWith(s, sub) {
        assert OccursAt(s, sub, 0);
      } else {
        ContainsIffOccurs(s[1..], sub);
        var i :| OccursAt(s[1..], sub, i);
        assert s[i + 1..i + 1 + |sub|] == s[1..][i..i + |sub|];
        assert OccursAt(s, sub, i + 1);
      }
    }
    if exists i :: OccursAt(s, sub, i) {
      var i :| OccursAt(s, sub, i);
      if i == 0 {
        assert StartsWith(s, sub);
      } else {
        assert s[1..][i - 1..i - 1 + |sub|] == s[i..i + |sub|];
        assert OccursAt(s[1..], sub, i - 1);
        ContainsIffOccurs(s[1..], sub);
      }
    }
  }

  /** `Array.prototype.join` */
  function Join(parts: seq<string>, sep: string): string
  {
    if parts == [] then ""
    else if |parts| == 1 then parts[0]
    else parts[0] + sep + Join(parts[1..], sep)
  }

  // ---------------------------------------------------------------------
  // Numbers as text
  // ---------------------------------------------------------------------

  /** `String(n)` for a non-negative integer. */
  function DecimalString(n: nat): (s: string)
    ensures |s| >= 1 && forall i :: 0 <= i < |s| ==> IsDigit(s[i])
    ensures s[0] == '0' ==> n == 0
  {
    if n < 10 then [DigitChar(n)] else DecimalString(n / 10) + [DigitChar(n % 10)]
  }

  /** `String(n)` for any integer. */
  function IntString(n: int): string
  {
    if n < 0 then "-" + DecimalString(-n) else DecimalString(n)
  }

  /** The value of a run of digits in base `radix`, most significant first. */
  function DigitsValue(ds: string, radix: nat): nat
    requires forall i :: 0 <= i < |ds| ==> RadixDigit(ds[i], radix).Some?
  {
    if ds == [] then 0
    else DigitsValue(ds[..|ds| - 1], radix) * radix + RadixDigit(ds[|ds| - 1], radix).value
  }

  /** The value of `c` as a digit in base 10 or 16, if it is one. */
  function RadixDigit(c: char, radix: nat): Option<nat>
  {
    if IsDigit(c) then Some(DigitValue(c))
    else if radix == 16 && 'a' <= c <= 'f' then Some(c as int - 'a' as int + 10)
    else if radix == 16 && 'A' <= c <= 'F' then Some(c as int - 'A' as int + 10)
    else None
  }

  /** The longest prefix of `s` made of base-`radix` digits. */
  function LeadingDigits(s: string, radix: nat): (ds: string)
    ensures |ds| <= |s| && ds == s[..|ds|]
    ensures forall i :: 0 <= i < |ds| ==> RadixDigit(ds[i], radix).Some?
    ensures |ds| < |s| ==> RadixDigit(s[|ds|], radix).None?
  {
    if s != [] && RadixDigit(s[0], radix).Some? then [s[0]] + LeadingDigits(s[1..], radix) else []
  }

  /** The number written by the digits at the start of `s`, if there are any. */
  function DigitRun(s: string, radix: nat): Option<nat>
  {
    var ds := LeadingDigits(s, radix);
    if ds == [] then None else Some(DigitsValue(ds, radix))
  }

  /** An unsigned `parseInt` operand: a `0x`/`0X` prefix selects base 16. */
  function ParseUnsigned(u: string): Option<nat>
  {
    if |u| >= 2 && u[0] == '0' && (u[1] == 'x' || u[1] == 'X') then DigitRun(u[2..], 16)
    else DigitRun(u, 10)
  }

  /**
   * `parseInt(s)` with no radix: leading white space is skipped, one sign
   * is read, and the longest run of digits that follows is the value; no
   * digit at all gives NaN (None).
   */
  function ParseInt(s: string): Option<int>
  {
    var t := TrimStart(s);
    if t != [] && t[0] == '-' then
      match ParseUnsigned(t[1..])
      case None => None
      case Some(n) => Some(-(n as int))
    else if t != [] && t[0] == '+' then
      match ParseUnsigned(t[1..])
      case None => None
      case Some(n) => Some(n)
    else
      match ParseUnsigned(t)
      case None => None
      case Some(n) => Some(n)
  }

  /** `parseInt(s) || 0`: NaN becomes 0. */
  function ParseIntOrZero(s: string): int
  {
    match ParseInt(s)
    case None => 0
    case Some(n) => n
  }

  lemma {:induction false} DecimalStringValue(n: nat)
    ensures LeadingDigits(DecimalString(n), 10) == DecimalString(n)
    ensures DigitsValue(DecimalString(n), 10) == n
  {
    var s := DecimalString(n);
    LeadingDigitsOfDigits(s);
    if n >= 10 {
      DecimalStringValue(n / 10);
      assert s[..|s| - 1] == DecimalString(n / 10);
    }
  }

  lemma {:induction false} LeadingDigitsOfDigits(s: string)
    requires forall i :: 0 <= i < |s| ==> IsDigit(s[i])
    ensures LeadingDigits(s, 10) == s
  {
    if s != [] {
      LeadingDigitsOfDigits(s[1..]);
    }
  }

  /** `parseInt` reads back what `String(n)` writes. */
  lemma ParseIntDecimalString(n: nat)
    ensures ParseInt(DecimalString(n)) == Some(n)
  {
    var s := DecimalString(n);
    DecimalStringValue(n);
    assert IsDigit(s[0]);
    assert !IsSpace(s[0]);
    assert TrimStart(s) == s;
    assert s[0] != '-' && s[0] != '+';
    assert ParseUnsigned(s) == Some(n) by {
      if |s| >= 2 && s[0] == '0' {
        assert false;
      }
      assert DigitRun(s, 10) == Some(n);
    }
  }

  // ---------------------------------------------------------------------
  // Sequences
  // ---------------------------------------------------------------------

  /** `Array.prototype.map`: `f` applied to each element, in order. */
  function MapSeq<A, B>(xs: seq<A>, f: A -> B): (ys: seq<B>)
    ensures |ys| == |xs|
    ensures forall k :: 0 <= k < |xs| ==> ys[k] == f(xs[k])
  {
    if xs == [] then []
    else
      var init := xs[..|xs| - 1];
      assert forall k :: 0 <= k < |init| ==> init[k] == xs[k];
      MapSeq(init, f) + [f(xs[|xs| - 1])]
  }

  /** `Array.prototype.filter`: the elements that pass, in their order. */
  function Filter<T(!new)>(xs: seq<T>, keep: T -> bool): (r: seq<T>)
    ensures |r| <= |xs|
    ensures forall x :: x in r <==> x in xs && keep(x)
  {
    if xs == [] then []
    else
      assert xs == [xs[0]] + xs[1..];
      (if keep(xs[0]) then [xs[0]] else []) + Filter(xs[1..], keep)
  }

  /** Filtering distributes over concatenation, so the kept elements stay in order. */
  lemma {:induction false} FilterAppend<T(!new)>(xs: seq<T>, ys: seq<T>, keep: T -> bool)
    ensures Filter(xs + ys, keep) == Filter(xs, keep) + Filter(ys, keep)
  {
    if xs == [] {
      assert xs + ys == ys;
    } else {
      assert (xs + ys)[1..] == xs[1..] + ys;
      FilterAppend(xs[1..], ys, keep);
    }
  }

  /** When every element passes, the filter returns the sequence itself. */
  lemma {:induction false} FilterKeepsAll<T(!new)>(xs: seq<T>, keep: T -> bool)
    requires forall k :: 0 <= k < |xs| ==> keep(xs[k])
    ensures Filter(xs, keep) == xs
  {
    if xs != [] {
      var tail := xs[1..];
      assert forall k :: 0 <= k < |tail| ==> keep(tail[k]) by {
        forall k | 0 <= k < |tail| ensures keep(tail[k]) {
          assert tail[k] == xs[k + 1];
        }
      }
      FilterKeepsAll(tail, keep);
      assert keep(xs[0]);
      assert Filter(xs, keep) == [xs[0]] + tail;
    }
  }

  /** Each element that passes is kept as often as it occurs; the others are gone. */
  lemma {:induction false} FilterMultiset<T(!new)>(xs: seq<T>, keep: T -> bool, x: T)
    ensures multiset(Filter(xs, keep))[x] == if keep(x) then multiset(xs)[x] else 0
  {
    if xs != [] {
      var head := if keep(xs[0]) then [xs[0]] else [];
      FilterMultiset(xs[1..], keep, x);
      assert xs == [xs[0]] + xs[1..];
      assert multiset(Filter(xs, keep)) == multiset(head) + multiset(Filter(xs[1..], keep));
    }
  }

  /** `xs.filter(p).length` */
  function CountWhere<T>(xs: seq<T>, p: T -> bool): (n: nat)
    ensures n <= |xs|
  {
    if xs == [] then 0
    else CountWhere(xs[..|xs| - 1], p) + (if p(xs[|xs| - 1]) then 1 else 0)
  }

  /** Fewer than all pass iff some element fails. */
  lemma {:induction false} CountWhereBelow<T>(xs: seq<T>, p: T -> bool)
    ensures CountWhere(xs, p) < |xs| <==> exists k :: 0 <= k < |xs| && !p(xs[k])
  {
    if xs != [] {
      var init := xs[..|xs| - 1];
      CountWhereBelow(init, p);
      if exists k :: 0 <= k < |init| && !p(init[k]) {
        var k :| 0 <= k < |init| && !p(init[k]);
        assert xs[k] == init[k];
      }
      if exists k :: 0 <= k < |xs| && !p(xs[k]) {
        var k :| 0 <= k < |xs| && !p(xs[k]);
        if k < |init| {
          assert init[k] == xs[k];
        }
      }
    }
  }

  /** The filter keeps as many elements as pass. */
  lemma {:induction false} FilterCount<T(!new)>(xs: seq<T>, keep: T -> bool)
    ensures |Filter(xs, keep)| == CountWhere(xs, keep)
  {
    if xs != [] {
      var init := xs[..|xs| - 1];
      var last := xs[|xs| - 1];
      assert xs == init + [last];
      FilterAppend(init, [last], keep);
      FilterCount(init, keep);
      assert [last][1..] == [];
    }
  }

  /** Two complementary tests split a sequence: the counts add up to its length. */
  lemma {:induction false} CountWhereSplit<T>(xs: seq<T>, p: T -> bool, q: T -> bool)
    requires forall k :: 0 <= k < |xs| ==> (p(xs[k]) <==> !q(xs[k]))
    ensures CountWhere(xs, p) + CountWhere(xs, q) == |xs|
  {
    if xs != [] {
      var init := xs[..|xs| - 1];
      assert forall k :: 0 <= k < |init| ==> init[k] == xs[k];
      CountWhereSplit(init, p, q);
    }
  }

  /** `xs.filter(y => y !== x)`: every occurrence of `x` removed, order kept. */
  function RemoveAll<T(==,!new)>(xs: seq<T>, x: T): (r: seq<T>)
    ensures x !in r
    ensures forall y :: y != x ==> (y in r <==> y in xs)
    ensures multiset(r) == multiset(xs)[x := 0]
  {
    var r := Filter(xs, Other(x));
    assert multiset(r) == multiset(xs)[x := 0] by {
      forall y ensures multiset(r)[y] == multiset(xs)[x := 0][y] {
        FilterMultiset(xs, Other(x), y);
      }
    }
    r
  }

  /** The test `y => y !== x`. */
  function Other<T(==)>(x: T): T -> bool
  {
    y => y != x
  }

  /** Removal takes the sequence apart from its head. */
  lemma RemoveAllHead<T(!new)>(xs: seq<T>, x: T)
    requires xs != []
    ensures RemoveAll(xs, x) == (if xs[0] != x then [xs[0]] else []) + RemoveAll(xs[1..], x)
  {
    assert Other(x)(xs[0]) == (xs[0] != x);
  }

  /** Removal keeps the order of what remains: a split sequence is cleaned part by part. */
  lemma RemoveAllAppend<T(!new)>(xs: seq<T>, ys: seq<T>, x: T)
    ensures RemoveAll(xs + ys, x) == RemoveAll(xs, x) + RemoveAll(ys, x)
  {
    FilterAppend(xs, ys, Other(x));
  }

  /** A `Set` after a toggle click: `x` added when absent, removed when present. */
  function Toggled<T(!new)>(s: set<T>, x: T): (r: set<T>)
    ensures x in r <==> x !in s
    ensures forall y :: y != x ==> (y in r <==> y in s)
  {
    if x in s then s - {x} else s + {x}
  }

  /** Toggling the same element twice restores the set. */
  lemma ToggleTwice<T(!new)>(s: set<T>, x: T)
    ensures Toggled(Toggled(s, x), x) == s
  {
  }

  // ---------------------------------------------------------------------
  // JavaScript objects as insertion-ordered records
  // ---------------------------------------------------------------------

  /** A plain JavaScript object: its own keys in insertion order, each with its value. */
  type Record<V> = seq<(string, V)>

  function Keys<V>(r: Record<V>): (ks: seq<string>)
    ensures |ks| == |r| && forall i :: 0 <= i < |r| ==> ks[i] == r[i].0
  {
    if r == [] then [] else [r[0].0] + Keys(r[1..])
  }

  /** No key occurs twice, as in every JavaScript object. */
  predicate UniqueKeys<V>(r: Record<V>)
  {
    forall i, j :: 0 <= i < j < |r| ==> r[i].0 != r[j].0
  }

  /** `r[k]`, with None for a missing key (`undefined`). */
  function Get<V>(r: Record<V>, k: string): (o: Option<V>)
    ensures o.Some? <==> k in Keys(r)
  {
    if r == [] then None
    else if r[0].0 == k then Some(r[0].1)
    else Get(r[1..], k)
  }

  /**
   * `r[k] = v` (equivalently `{...r, [k]: v}`): an existing key keeps its
   * place and takes the new value; a new key goes at the end.
   */
  function Put<V>(r: Record<V>, k: string, v: V): (r': Record<V>)
    ensures k in Keys(r) ==> Keys(r') == Keys(r)
    ensures k !in Keys(r) ==> Keys(r') == Keys(r) + [k]
    ensures Get(r', k) == Some(v)
    ensures forall k' :: k' != k ==> Get(r', k') == Get(r, k')
  {
    if r == [] then [(k, v)]
    else if r[0].0 == k then
      ReplaceHead(r, k, v);
      [(k, v)] + r[1..]
    else
      var rest := Put(r[1..], k, v);
      ConsKeepsPut(r[0], r[1..], rest, k, v);
      assert r == [r[0]] + r[1..];
      [r[0]] + rest
  }

  /** Replacing the first entry's value keeps the keys and changes only that key's value. */
  lemma ReplaceHead<V>(r: Record<V>, k: string, v: V)
    requires r != [] && r[0].0 == k
    ensures Keys([(k, v)] + r[1..]) == Keys(r)
    ensures Get([(k, v)] + r[1..], k) == Some(v)
    ensures forall k' :: k' != k ==> Get([(k, v)] + r[1..], k') == Get(r, k')
  {
    var r' := [(k, v)] + r[1..];
    assert r'[1..] == r[1..];
    assert Keys(r') == [k] + Keys(r[1..]);
  }

  /** The keys of a record with one more entry in front. */
  lemma KeysCons<V>(x: (string, V), r: Record<V>)
    ensures Keys([x] + r) == [x.0] + Keys(r)
  {
    assert ([x] + r)[1..] == r;
  }

  /** Looking a key up in a record with one more entry in front. */
  lemma GetCons<V>(x: (string, V), r: Record<V>, k: string)
    ensures Get([x] + r, k) == if x.0 == k then Some(x.1) else Get(r, k)
  {
    assert ([x] + r)[1..] == r;
  }

  /** An entry with another key, put in front of both records, keeps `Put`'s contract between them. */
  lemma ConsKeepsPut<V>(x: (string, V), r: Record<V>, r': Record<V>, k: string, v: V)
    requires x.0 != k
    requires k in Keys(r) ==> Keys(r') == Keys(r)
    requires k !in Keys(r) ==> Keys(r') == Keys(r) + [k]
    requires Get(r', k) == Some(v)
    requires forall k' :: k' != k ==> Get(r', k') == Get(r, k')
    ensures k in Keys([x] + r) ==> Keys([x] + r') == Keys([x] + r)
    ensures k !in Keys([x] + r) ==> Keys([x] + r') == Keys([x] + r) + [k]
    ensures Get([x] + r', k) == Some(v)
    ensures forall k' :: k' != k ==> Get([x] + r', k') == Get([x] + r, k')
  {
    KeysCons(x, r);
    KeysCons(x, r');
    if k !in Keys(r) {
      assert [x.0] + (Keys(r) + [k]) == ([x.0] + Keys(r)) + [k];
    }
    GetCons(x, r', k);
    forall k' | k' != k ensures Get([x] + r', k') == Get([x] + r, k') {
      GetCons(x, r', k');
      GetCons(x, r, k');
    }
  }

  /** A record whose keys are distinct keeps them distinct under `Put`. */
  lemma {:induction false} PutKeepsUniqueKeys<V>(r: Record<V>, k: string, v: V)
    requires UniqueKeys(r)
    ensures UniqueKeys(Put(r, k, v))
  {
    if r != [] && r[0].0 != k {
      var tail := r[1..];
      assert UniqueKeys(tail) by {
        forall i, j | 0 <= i < j < |tail| ensures tail[i].0 != tail[j].0 {
          assert tail[i] == r[i + 1] && tail[j] == r[j + 1];
        }
      }
      PutKeepsUniqueKeys(tail, k, v);
      var rest := Put(tail, k, v);
      assert r[0].0 !in Keys(tail) by {
        forall j | 0 <= j < |tail| ensures Keys(tail)[j] != r[0].0 {
          assert tail[j] == r[j + 1];
        }
      }
      assert r[0].0 !in Keys(rest);
      ConsKeepsUniqueKeys(r[0], rest);
      assert Put(r, k, v) == [r[0]] + rest;
    }
  }

  /** A new first entry whose key is not among the others keeps the keys distinct. */
  lemma ConsKeepsUniqueKeys<V>(x: (string, V), r: Record<V>)
    requires UniqueKeys(r) && x.0 !in Keys(r)
    ensures UniqueKeys([x] + r)
  {
    var r' := [x] + r;
    forall i, j | 0 <= i < j < |r'| ensures r'[i].0 != r'[j].0 {
      assert r'[j] == r[j - 1] && r[j - 1].0 == Keys(r)[j - 1];
      if i > 0 {
        assert r'[i] == r[i - 1];
      }
    }
  }
}
