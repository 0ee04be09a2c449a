/** Shared vocabulary of the model: optional values, parsed JSON values as
    JavaScript sees them, and the handful of string operations the dashboard
    and the static-web controller perform (trim, split on a character, case
    mapping, join, de-duplication in insertion order). */
module Common {

  /** `null`/`undefined` versus a present value. */
  datatype Option<+T> = None | Some(value: T)

  /** JavaScript truthiness of an optional string: absent and "" are falsy. */
  predicate Truthy(s: Option<string>) {
    s.Some? && s.value != ""
  }

  /** A value produced by `JSON.parse` (or any plain JavaScript value of that
      shape). Objects keep their keys in insertion order; a JavaScript object
      has distinct keys, so lookups take the first match. Numbers are finite. */
  datatype Json =
    | JNull
    | JBool(b: bool)
    | JNum(n: real)
    | JStr(s: string)
    | JArr(items: seq<Json>)
    | JObj(fields: seq<(string, Json)>)

  /** Property access `obj[key]` on an object's fields; None is `undefined`. */
  function Get(fields: seq<(string, Json)>, key: string): (r: Option<Json>)
    ensures fields == [] ==> r.None?
  {
    if fields == [] then None
    else if fields[0].0 == key then Some(fields[0].1)
    else Get(fields[1..], key)
  }

  /** A lookup finds the value of the first field with the key. */
  lemma {:induction false} GetFindsFirst(fields: seq<(string, Json)>, key: string, i: nat)
    requires i < |fields| && fields[i].0 == key
    requires forall j :: 0 <= j < i ==> fields[j].0 != key
    ensures Get(fields, key) == Some(fields[i].1)
  {
    if i > 0 {
      GetFindsFirst(fields[1..], key, i - 1);
    }
  }

  /** A lookup of a key no field has is `undefined`. */
  lemma {:induction false} GetAbsent(fields: seq<(string, Json)>, key: string)
    requires forall j :: 0 <= j < |fields| ==> fields[j].0 != key
    ensures Get(fields, key).None?
  {
    if fields != [] {
      GetAbsent(fields[1..], key);
    }
  }

  /** `String(v)` for a JSON value. Number-to-text is left to an oracle
      because JavaScript's shortest round-trip float printing is not modelled. */
  function ToJsString(v: Json, numText: real -> string): string
    decreases v
  {
    match v
    case JNull => "null"
    case JBool(b) => if b then "true" else "false"
    case JNum(n) => numText(n)
    case JStr(s) => s
    case JArr(items) => JoinArray(items, ",", numText)
    case JObj(_) => "[object Object]"
  }

  /** `Array.prototype.join(sep)`: null elements print as "". */
  function JoinArray(items: seq<Json>, sep: string, numText: real -> string): string
    decreases items
  {
    if items == [] then ""
    else
      var head := if items[0].JNull? then "" else ToJsString(items[0], numText);
      if |items| == 1 then head else head + sep + JoinArray(items[1..], sep, numText)
  }

  // ---------------------------------------------------------------------
  // Prefixes, suffixes and single-character splits
  // ---------------------------------------------------------------------

  predicate StartsWith(s: string, prefix: string) {
    prefix <= s
  }

  predicate EndsWith(s: string, suffix: string) {
    |suffix| <= |s| && s[|s| - |suffix|..] == suffix
  }

  /** `s.split(c)[0]`: the text before the first `c`. */
  function BeforeFirst(s: string, c: char): (r: string)
    ensures r <= s
    ensures c !in r
    ensures |r| < |s| ==> s[|r|] == c
  {
    if s == [] then []
    else if s[0] == c then []
    else [s[0]] + BeforeFirst(s[1..], c)
  }

  /** `s.split(c).pop()`: the text after the last `c` (all of `s` if none). */
  function AfterLast(s: string, c: char): (r: string)
    ensures |r| <= |s| && r == s[|s| - |r|..]
    ensures c !in r
    ensures |r| < |s| ==> s[|s| - |r| - 1] == c
  {
    if s == [] then []
    else if s[|s| - 1] == c then []
    else AfterLast(s[..|s| - 1], c) + [s[|s| - 1]]
  }

  /** When `c` occurs, the text after its last occurrence follows a `c`
      at the end of `s`. */
  lemma AfterLastIsSuffix(s: string, c: char)
    requires c in s
    ensures EndsWith(s, [c] + AfterLast(s, c))
  {
    var r := AfterLast(s, c);
    assert |r| < |s|;
    assert s[|s| - |r| - 1..] == [c] + r;
  }

  /** The text after the last separator of `a + [c] + b` is `b`. */
  lemma AfterLastOfConcat(a: string, c: char, b: string)
    requires c !in b
    ensures AfterLast(a + [c] + b, c) == b
  {
    var s := a + [c] + b;
    var r := AfterLast(s, c);
    assert s[|a|] == c;
  }

  // ---------------------------------------------------------------------
  // Whitespace trimming
  // ---------------------------------------------------------------------

  /** The characters `String.prototype.trim` removes that this model knows:
      tab, line feed, vertical tab, form feed, carriage return, space,
      no-break space and the byte-order mark. */
  const Spaces: set<char> := {' ', '\t', '\n', '\r', '\U{0B}', '\U{0C}', '\U{A0}', '\U{FEFF}'}

  predicate IsSpace(c: char) {
    c in Spaces
  }

  /** The number of whitespace characters `s` starts with. */
  function LeadingSpaces(s: string): (n: nat)
    ensures n <= |s|
    ensures forall i :: 0 <= i < n ==> IsSpace(s[i])
    ensures n < |s| ==> !IsSpace(s[n])
  {
    if s == [] || !IsSpace(s[0]) then 0
    else
      var n := 1 + LeadingSpaces(s[1..]);
      assert forall i :: 1 <= i < n ==> s[i] == s[1..][i - 1];
      n
  }

  /** The length of `s` without its trailing whitespace. */
  function EndOfText(s: string): (n: nat)
    ensures n <= |s|
    ensures forall i :: n <= i < |s| ==> IsSpace(s[i])
    ensures n > 0 ==> !IsSpace(s[n - 1])
  {
    if s == [] || !IsSpace(s[|s| - 1]) then |s|
    else
      var n := EndOfText(s[..|s| - 1]);
      assert forall i :: 0 <= i < n ==> s[i] == s[..|s| - 1][i];
      n
  }

  /** A string all of whose characters are whitespace (including ""). */
  predicate IsBlank(s: string) {
    forall i :: 0 <= i < |s| ==> IsSpace(s[i])
  }

  /** `s.trim()`: drops leading and trailing whitespace, keeps the middle. */
  function Trim(s: string): (r: string)
    ensures r == [] || (!IsSpace(r[0]) && !IsSpace(r[|r| - 1]))
    ensures r == [] <==> IsBlank(s)
    ensures forall x :: x in r ==> x in s
    ensures s == [] || (!IsSpace(s[0]) && !IsSpace(s[|s| - 1])) ==> r == s
  {
    var lo := LeadingSpaces(s);
    if lo == |s| then []
    else
      var hi := EndOfText(s);
      assert lo < hi;
      s[lo..hi]
  }

  /** Trimming twice is trimming once. */
  lemma TrimIdempotent(s: string)
    ensures Trim(Trim(s)) == Trim(s)
  {
  }

  // ---------------------------------------------------------------------
  // Case mapping (ASCII letters; other characters are left as they are)
  // ---------------------------------------------------------------------

  function LowerChar(c: char): char {
    if 'A' <= c <= 'Z' then (c as int + 32) as char else c
  }

  function UpperChar(c: char): char {
    if 'a' <= c <= 'z' then (c as int - 32) as char else c
  }

  /** `s.toLowerCase()`. */
  function ToLower(s: string): (r: string)
    ensures |r| == |s|
    ensures forall i :: 0 <= i < |s| ==> r[i] == LowerChar(s[i])
  {
    if s == [] then [] else [LowerChar(s[0])] + ToLower(s[1..])
  }

  /** `s.toUpperCase()`. */
  function ToUpper(s: string): (r: string)
    ensures |r| == |s|
    ensures forall i :: 0 <= i < |s| ==> r[i] == UpperChar(s[i])
  {
    if s == [] then [] else [UpperChar(s[0])] + ToUpper(s[1..])
  }

  /** `parts.join(sep)`. */
  function Join(parts: seq<string>, sep: string): string {
    if parts == [] then ""
    else if |parts| == 1 then parts[0]
    else parts[0] + sep + Join(parts[1..], sep)
  }

  // ---------------------------------------------------------------------
  // Sequences without repetition
  // ---------------------------------------------------------------------

  /** `a` is `b` with some elements left out, order kept. */
  predicate IsSubsequence<T(==)>(a: seq<T>, b: seq<T>)
    decreases |b|
  {
    a == [] || (b != [] && ((a[0] == b[0] && IsSubsequence(a[1..], b[1..])) || IsSubsequence(a, b[1..])))
  }

  /** `s.filter(keep)`: the elements `keep` accepts, every copy of each,
      in their original order. */
  function Filter<T(==,!new)>(s: seq<T>, keep: T -> bool): (r: seq<T>)
    ensures IsSubsequence(r, s)
    ensures forall i :: 0 <= i < |r| ==> keep(r[i])
  {
    if s == [] then []
    else
      var rest := Filter(s[1..], keep);
      if keep(s[0]) then [s[0]] + rest else rest
  }

  /** A filter keeps every copy of each accepted element and nothing
      else. */
  lemma {:induction false} FilterCounts<T(!new)>(s: seq<T>, keep: T -> bool)
    ensures forall x :: multiset(Filter(s, keep))[x] == if keep(x) then multiset(s)[x] else 0
  {
    if s != [] {
      FilterCounts(s[1..], keep);
      assert s == [s[0]] + s[1..];
    }
  }

  /** A filter that accepts everything keeps everything. */
  lemma {:induction false} FilterAll<T(!new)>(s: seq<T>, keep: T -> bool)
    requires forall i :: 0 <= i < |s| ==> keep(s[i])
    ensures Filter(s, keep) == s
  {
    if s != [] {
      FilterAll(s[1..], keep);
      assert s == [s[0]] + s[1..];
    }
  }

  /** Filtering distributes over concatenation. */
  lemma {:induction false} FilterConcat<T(!new)>(a: seq<T>, b: seq<T>, keep: T -> bool)
    ensures Filter(a + b, keep) == Filter(a, keep) + Filter(b, keep)
  {
    if a != [] {
      FilterConcat(a[1..], b, keep);
      var head := if keep(a[0]) then [a[0]] else [];
      assert (a + b)[1..] == a[1..] + b;
      FilterCons(a + b, keep);
      FilterCons(a, keep);
      calc {
        Filter(a + b, keep);
        head + Filter(a[1..] + b, keep);
        head + (Filter(a[1..], keep) + Filter(b, keep));
        (head + Filter(a[1..], keep)) + Filter(b, keep);
      }
    } else {
      assert a + b == b;
    }
  }

  lemma FilterCons<T(!new)>(s: seq<T>, keep: T -> bool)
    requires s != []
    ensures Filter(s, keep) == (if keep(s[0]) then [s[0]] else []) + Filter(s[1..], keep)
  {
  }

  /** A filter that accepts nothing keeps nothing. */
  lemma {:induction false} FilterNone<T(!new)>(s: seq<T>, keep: T -> bool)
    requires forall i :: 0 <= i < |s| ==> !keep(s[i])
    ensures Filter(s, keep) == []
  {
    if s != [] {
      FilterNone(s[1..], keep);
    }
  }

  /** Membership in a filter, both ways. */
  lemma FilterMembers<T(!new)>(s: seq<T>, keep: T -> bool)
    ensures forall x :: x in Filter(s, keep) <==> x in s && keep(x)
  {
    FilterCounts(s, keep);
    forall x
      ensures x in Filter(s, keep) <==> x in s && keep(x)
    {
      assert x in Filter(s, keep) <==> multiset(Filter(s, keep))[x] > 0;
      assert x in s <==> multiset(s)[x] > 0;
    }
  }

  /** `items.map(f).filter(present)` where item `i` is mapped together
      with its position `offset + i`: the present results, in order. */
  function FilterMapFrom<A, B>(items: seq<A>, offset: nat, f: (A, nat) -> Option<B>): (r: seq<B>)
    ensures |r| <= |items|
  {
    if items == [] then []
    else
      var rest := FilterMapFrom(items[1..], offset + 1, f);
      var head := f(items[0], offset);
      if head.Some? then [head.value] + rest else rest
  }

  /** A property every present result of the items has holds of every
      result. */
  lemma {:induction false} FilterMapKeeps<A, B>(items: seq<A>, offset: nat, f: (A, nat) -> Option<B>, p: B -> bool)
    requires forall i :: 0 <= i < |items| && f(items[i], offset + i).Some? ==> p(f(items[i], offset + i).value)
    ensures forall k :: 0 <= k < |FilterMapFrom(items, offset, f)| ==> p(FilterMapFrom(items, offset, f)[k])
  {
    if items != [] {
      forall i | 0 <= i < |items| - 1 && f(items[1..][i], offset + 1 + i).Some?
        ensures p(f(items[1..][i], offset + 1 + i).value)
      {
        assert items[1..][i] == items[i + 1] && offset + 1 + i == offset + (i + 1);
      }
      FilterMapKeeps(items[1..], offset + 1, f, p);
      assert f(items[0], offset + 0) == f(items[0], offset);
    }
  }

  /** The item at `i`, when present, lands right after the results of the
      items before it. */
  lemma {:induction false} FilterMapAt<A, B>(items: seq<A>, offset: nat, f: (A, nat) -> Option<B>, i: nat)
    requires i < |items| && f(items[i], offset + i).Some?
    ensures var r := FilterMapFrom(items, offset, f);
            var k := |FilterMapFrom(items[..i], offset, f)|;
            k < |r| && r[k] == f(items[i], offset + i).value
  {
    if i > 0 {
      assert items[1..][i - 1] == items[i] && offset + 1 + (i - 1) == offset + i;
      FilterMapAt(items[1..], offset + 1, f, i - 1);
      assert items[..i][1..] == items[1..][..i - 1];
      assert items[..i][0] == items[0];
    }
  }

  /** When presence follows `keep`, the results are as many as the items
      `keep` accepts. */
  lemma {:induction false} FilterMapCount<A(!new), B>(items: seq<A>, offset: nat, f: (A, nat) -> Option<B>,
                                                          keep: A -> bool)
    requires forall i :: 0 <= i < |items| ==> (f(items[i], offset + i).Some? <==> keep(items[i]))
    ensures |FilterMapFrom(items, offset, f)| == |Filter(items, keep)|
  {
    if items != [] {
      forall i | 0 <= i < |items| - 1
        ensures f(items[1..][i], offset + 1 + i).Some? <==> keep(items[1..][i])
      {
        assert items[1..][i] == items[i + 1] && offset + 1 + i == offset + (i + 1);
      }
      FilterMapCount(items[1..], offset + 1, f, keep);
      assert Filter(items, keep) == if keep(items[0]) then [items[0]] + Filter(items[1..], keep) else Filter(items[1..], keep);
    }
  }

  /** When every item is present, the results are exactly their values. */
  lemma {:induction false} FilterMapAll<A, B>(items: seq<A>, offset: nat, f: (A, nat) -> Option<B>, ps: seq<B>)
    requires |ps| == |items|
    requires forall i :: 0 <= i < |items| ==> f(items[i], offset + i) == Some(ps[i])
    ensures FilterMapFrom(items, offset, f) == ps
  {
    if items != [] {
      forall i | 0 <= i < |items| - 1
        ensures f(items[1..][i], offset + 1 + i) == Some(ps[1..][i])
      {
        assert items[1..][i] == items[i + 1] && offset + 1 + i == offset + (i + 1);
      }
      FilterMapAll(items[1..], offset + 1, f, ps[1..]);
      assert f(items[0], offset + 0) == Some(ps[0]);
      assert ps == [ps[0]] + ps[1..];
    }
  }

  predicate NoDuplicates<T(==)>(s: seq<T>) {
    forall i, j :: 0 <= i < j < |s| ==> s[i] != s[j]
  }

  /** The position of the first occurrence of `x`; `|s|` when there is
      none. */
  function FirstIndex<T(==)>(s: seq<T>, x: T): (k: nat)
    ensures k <= |s|
    ensures k < |s| <==> x in s
    ensures k < |s| ==> s[k] == x
    ensures forall j :: 0 <= j < k ==> s[j] != x
  {
    if s == [] then 0
    else if s[0] == x then 0
    else
      var k := 1 + FirstIndex(s[1..], x);
      assert forall j :: 1 <= j < |s| ==> s[j] == s[1..][j - 1];
      k
  }

  /** One step of the search: the head, or one past the index in the tail. */
  lemma FirstIndexCons<T>(s: seq<T>, x: T)
    requires s != []
    ensures FirstIndex(s, x) == if s[0] == x then 0 else 1 + FirstIndex(s[1..], x)
  {
  }

  /** A position holding `x` with no `x` before it is the first one. */
  lemma FirstIndexUnique<T>(s: seq<T>, x: T, k: nat)
    requires k < |s| && s[k] == x
    requires forall j :: 0 <= j < k ==> s[j] != x
    ensures FirstIndex(s, x) == k
  {
  }

  /** Appending leaves the first occurrences already present in place. */
  lemma FirstIndexOfPrefix<T>(s: seq<T>, y: T)
    requires s != [] && y in s[..|s| - 1]
    ensures FirstIndex(s, y) == FirstIndex(s[..|s| - 1], y)
  {
    var p := s[..|s| - 1];
    var k := FirstIndex(p, y);
    assert forall j :: 0 <= j < k ==> s[j] == p[j];
    FirstIndexUnique(s, y, k);
  }

  /** `Array.from(new Set(s))`: the first occurrence of every element, in
      the order of first occurrence (the order is `DedupeKeepsFirstOrder`). */
  function Dedupe<T(==)>(s: seq<T>): (r: seq<T>)
    ensures NoDuplicates(r)
    ensures forall i :: 0 <= i < |r| ==> r[i] in s
    ensures forall i :: 0 <= i < |s| ==> s[i] in r
    ensures |r| <= |s|
    ensures s != [] ==> r != [] && r[0] == s[0]
  {
    if s == [] then []
    else
      var prefix := Dedupe(s[..|s| - 1]);
      var last := s[|s| - 1];
      assert forall i :: 0 <= i < |s| - 1 ==> s[i] == s[..|s| - 1][i];
      if last in prefix then prefix else prefix + [last]
  }

  /** The kept elements appear in the order of their first occurrences. */
  lemma {:induction false} DedupeKeepsFirstOrder<T>(s: seq<T>)
    ensures forall i, j :: 0 <= i < j < |Dedupe(s)| ==> FirstIndex(s, Dedupe(s)[i]) < FirstIndex(s, Dedupe(s)[j])
  {
    if s != [] {
      var init := s[..|s| - 1];
      DedupeKeepsFirstOrder(init);
      var prefix := Dedupe(init);
      OrderSurvivesAppend(s, prefix);
      if s[|s| - 1] !in prefix {
        assert s[|s| - 1] !in init;
        FirstIndexOfNewLast(s);
        forall i | 0 <= i < |prefix|
          ensures FirstIndex(s, prefix[i]) < |s| - 1
        {
          FirstIndexOfPrefix(s, prefix[i]);
        }
      }
    }
  }

  /** First occurrences inside a prefix keep their order once the last
      element is appended. */
  lemma OrderSurvivesAppend<T>(s: seq<T>, prefix: seq<T>)
    requires s != []
    requires forall i :: 0 <= i < |prefix| ==> prefix[i] in s[..|s| - 1]
    requires forall i, j :: 0 <= i < j < |prefix| ==> FirstIndex(s[..|s| - 1], prefix[i]) < FirstIndex(s[..|s| - 1], prefix[j])
    ensures forall i, j :: 0 <= i < j < |prefix| ==> FirstIndex(s, prefix[i]) < FirstIndex(s, prefix[j])
  {
    forall i | 0 <= i < |prefix|
      ensures FirstIndex(s, prefix[i]) == FirstIndex(s[..|s| - 1], prefix[i])
    {
      FirstIndexOfPrefix(s, prefix[i]);
    }
  }

  /** A last element absent from the rest occurs first at the end. */
  lemma FirstIndexOfNewLast<T>(s: seq<T>)
    requires s != [] && s[|s| - 1] !in s[..|s| - 1]
    ensures FirstIndex(s, s[|s| - 1]) == |s| - 1
  {
    forall k | 0 <= k < |s| - 1
      ensures s[k] != s[|s| - 1]
    {
      assert s[k] == s[..|s| - 1][k];
    }
    FirstIndexUnique(s, s[|s| - 1], |s| - 1);
  }
}
