/** Strings as the Go standard library treats them: sequences of bytes, a `char` standing for one
    byte. Only what the modelled code calls is here. */
module Strings {

  datatype Option<+T> = None | Some(value: T)

  datatype Result<+T, +E> = Ok(value: T) | Err(error: E)

  /** All but the first n elements. */
  function Without<T>(s: seq<T>, n: nat): seq<T>
    requires n <= |s|
  {
    seq(|s| - n, i requires 0 <= i < |s| - n => s[n + i])
  }

  lemma WithoutIs<T>(s: seq<T>, n: nat)
    requires n <= |s|
    ensures Without(s, n) == s[n..]
  {
  }

  predicate HasPrefix(s: string, prefix: string) {
    prefix <= s
  }

  predicate HasSuffix(s: string, suffix: string) {
    |suffix| <= |s| && s[|s| - |suffix|..] == suffix
  }

  function TrimPrefix(s: string, prefix: string): string {
    if prefix <= s then s[|prefix|..] else s
  }

  /** The first index of c at or after n, or |s| when there is none. */
  function IndexFrom(s: string, c: char, n: nat): (i: nat)
    requires n <= |s|
    ensures n <= i <= |s|
    ensures forall k :: n <= k < i ==> s[k] != c
    ensures i < |s| ==> s[i] == c
    decreases |s| - n
  {
    if n == |s| || s[n] == c then n else IndexFrom(s, c, n + 1)
  }

  function IndexOf(s: string, c: char): (i: nat)
    ensures i <= |s|
    ensures forall k :: 0 <= k < i ==> s[k] != c
    ensures i < |s| ==> s[i] == c
  {
    IndexFrom(s, c, 0)
  }

  /** The last index of c before n, or -1 when there is none. */
  function LastIndexBefore(s: string, c: char, n: nat): (i: int)
    requires n <= |s|
    ensures -1 <= i < n
    ensures forall k :: i < k < n ==> s[k] != c
    ensures i >= 0 ==> s[i] == c
  {
    if n == 0 then -1
    else if s[n - 1] == c then n - 1
    else LastIndexBefore(s, c, n - 1)
  }

  function LastIndexOf(s: string, c: char): (i: int)
    ensures -1 <= i < |s|
    ensures forall k :: i < k < |s| ==> s[k] != c
    ensures i >= 0 ==> s[i] == c
  {
    LastIndexBefore(s, c, |s|)
  }

  lemma {:induction false} IndexFromIs(s: string, c: char, n: nat, i: nat)
    requires n <= i < |s| && s[i] == c && forall k :: n <= k < i ==> s[k] != c
    ensures IndexFrom(s, c, n) == i
    decreases i - n
  {
    if n < i {
      IndexFromIs(s, c, n + 1, i);
    }
  }

  lemma {:induction false} LastIndexBeforeIs(s: string, c: char, n: nat, i: nat)
    requires i < n <= |s| && s[i] == c && forall k :: i < k < n ==> s[k] != c
    ensures LastIndexBefore(s, c, n) == i
  {
    if i < n - 1 {
      LastIndexBeforeIs(s, c, n - 1, i);
    }
  }

  lemma IndexOfIs(a: string, c: char, b: string)
    requires c !in a
    ensures IndexOf(a + [c] + b, c) == |a|
  {
    var s := a + [c] + b;
    assert forall k :: 0 <= k < |a| ==> s[k] == a[k] && a[k] in a;
    IndexFromIs(s, c, 0, |a|);
  }

  lemma {:induction false} IndexFromAbsent(s: string, c: char, n: nat)
    requires n <= |s| && forall k :: n <= k < |s| ==> s[k] != c
    ensures IndexFrom(s, c, n) == |s|
    decreases |s| - n
  {
    if n < |s| {
      IndexFromAbsent(s, c, n + 1);
    }
  }

  lemma IndexOfAbsent(s: string, c: char)
    requires c !in s
    ensures IndexOf(s, c) == |s|
  {
    assert forall k :: 0 <= k < |s| ==> s[k] in s;
    IndexFromAbsent(s, c, 0);
  }

  lemma LastIndexOfIs(a: string, c: char, b: string)
    requires c !in b
    ensures LastIndexOf(a + [c] + b, c) == |a|
  {
    var s := a + [c] + b;
    assert forall k :: |a| < k < |s| ==> s[k] == b[k - |a| - 1] && b[k - |a| - 1] in b;
    LastIndexBeforeIs(s, c, |s|, |a|);
  }

  lemma {:induction false} LastIndexBeforeAbsent(s: string, c: char, n: nat)
    requires n <= |s| && forall k :: 0 <= k < n ==> s[k] != c
    ensures LastIndexBefore(s, c, n) == -1
  {
    if n > 0 {
      LastIndexBeforeAbsent(s, c, n - 1);
    }
  }

  lemma LastIndexOfAbsent(s: string, c: char)
    requires c !in s
    ensures LastIndexOf(s, c) == -1
  {
    assert forall k :: 0 <= k < |s| ==> s[k] in s;
    LastIndexBeforeAbsent(s, c, |s|);
  }

  lemma FirstDelimiter(a: string, b: string, c: char, r: string, s: string)
    requires c !in a && c !in b
    requires a + [c] + r == b + [c] + s
    ensures a == b && r == s
  {
    IndexOfIs(a, c, r);
    IndexOfIs(b, c, s);
    assert a == (a + [c] + r)[..|a|];
    assert b == (b + [c] + s)[..|b|];
    assert r == (a + [c] + r)[|a| + 1..];
    assert s == (b + [c] + s)[|b| + 1..];
  }

  // ---------- Split and Join on one separator ----------

  function Split(s: string, c: char): (parts: seq<string>)
    ensures |parts| > 0
    ensures forall p :: p in parts ==> c !in p
  {
    var i := IndexOf(s, c);
    if i == |s| then assert s[..i] == s; [s] else [s[..i]] + Split(s[i + 1..], c)
  }

  function Join(parts: seq<string>, c: char): string {
    if |parts| == 0 then ""
    else if |parts| == 1 then parts[0]
    else parts[0] + [c] + Join(parts[1..], c)
  }

  predicate Free(parts: seq<string>, c: char) {
    forall p :: p in parts ==> c !in p
  }

  lemma SplitFirst(first: string, rest: string, c: char)
    requires c !in first
    ensures Split(first + [c] + rest, c) == [first] + Split(rest, c)
  {
    var s := first + [c] + rest;
    IndexOfIs(first, c, rest);
    assert s[..|first|] == first && s[|first| + 1..] == rest;
  }

  lemma {:induction false} SplitJoin(parts: seq<string>, c: char)
    requires |parts| > 0 && Free(parts, c)
    ensures Split(Join(parts, c), c) == parts
  {
    assert parts[0] in parts;
    if |parts| == 1 {
      IndexOfAbsent(parts[0], c);
    } else {
      SplitFirst(parts[0], Join(parts[1..], c), c);
      SplitJoin(parts[1..], c);
    }
  }

  lemma {:induction false} JoinSplit(s: string, c: char)
    ensures Join(Split(s, c), c) == s
    decreases |s|
  {
    var i := IndexOf(s, c);
    if i == |s| {
    } else {
      JoinSplit(s[i + 1..], c);
      assert s == s[..i] + [c] + s[i + 1..];
      assert ([s[..i]] + Split(s[i + 1..], c))[1..] == Split(s[i + 1..], c);
    }
  }

  lemma JoinInjective(a: seq<string>, b: seq<string>, c: char)
    requires |a| > 0 && |b| > 0 && Free(a, c) && Free(b, c)
    requires Join(a, c) == Join(b, c)
    ensures a == b
  {
    SplitJoin(a, c);
    SplitJoin(b, c);
  }

  lemma {:induction false} JoinConcat(a: seq<string>, b: seq<string>, c: char)
    requires |a| > 0 && |b| > 0
    ensures Join(a + b, c) == Join(a, c) + [c] + Join(b, c)
  {
    if |a| == 1 {
      assert (a + b)[1..] == b;
    } else {
      assert (a + b)[1..] == a[1..] + b;
      JoinConcat(a[1..], b, c);
      assert Join(a + b, c) == a[0] + [c] + (Join(a[1..], c) + [c] + Join(b, c));
    }
  }

  lemma {:induction false} SplitConcat(a: string, b: string, c: char)
    ensures Split(a + [c] + b, c) == Split(a, c) + Split(b, c)
    decreases |a|
  {
    var i := IndexOf(a, c);
    if i == |a| {
      assert a[..i] == a;
      SplitFirst(a, b, c);
    } else {
      assert a + [c] + b == a[..i] + [c] + (a[i + 1..] + [c] + b);
      SplitFirst(a[..i], a[i + 1..] + [c] + b, c);
      SplitConcat(a[i + 1..], b, c);
      assert [a[..i]] + (Split(a[i + 1..], c) + Split(b, c)) == ([a[..i]] + Split(a[i + 1..], c)) + Split(b, c);
    }
  }

  /** Whole components: a joined list followed by the separator is a prefix of another joined list
      exactly when the first list is a proper prefix of the second. */
  lemma {:induction false} JoinPrefix(a: seq<string>, b: seq<string>, c: char)
    requires |a| > 0 && |b| > 0 && Free(a, c) && Free(b, c)
    ensures Join(a, c) + [c] <= Join(b, c) <==> |a| < |b| && a == b[..|a|]
    ensures Join(a, c) + [c] <= Join(b, c) ==> Join(b, c)[|Join(a, c)| + 1..] == Join(b[|a|..], c)
  {
    if |a| < |b| && a == b[..|a|] {
      assert b == a + b[|a|..];
      JoinConcat(a, b[|a|..], c);
    }
    if Join(a, c) + [c] <= Join(b, c) {
      var rest := Join(b, c)[|Join(a, c)| + 1..];
      assert Join(b, c) == Join(a, c) + [c] + rest;
      SplitConcat(Join(a, c), rest, c);
      SplitJoin(a, c);
      SplitJoin(b, c);
      assert b[..|a|] == a;
    }
  }

  // ---------- Byte-wise order ----------

  predicate LessEq(a: string, b: string) {
    a == "" || (b != "" && (a[0] < b[0] || (a[0] == b[0] && LessEq(a[1..], b[1..]))))
  }

  predicate Less(a: string, b: string) {
    LessEq(a, b) && a != b
  }

  lemma {:induction false} LessEqTotal(a: string, b: string)
    ensures LessEq(a, b) || LessEq(b, a)
    ensures LessEq(a, b) && LessEq(b, a) ==> a == b
  {
    if a != "" && b != "" && a[0] == b[0] {
      LessEqTotal(a[1..], b[1..]);
      assert a == [a[0]] + a[1..] && b == [b[0]] + b[1..];
    }
  }

  lemma {:induction false} LessEqTrans(a: string, b: string, c: string)
    requires LessEq(a, b) && LessEq(b, c)
    ensures LessEq(a, c)
  {
    if a != "" && b != "" && c != "" && a[0] == b[0] == c[0] {
      LessEqTrans(a[1..], b[1..], c[1..]);
    }
  }

  lemma LessTrans(a: string, b: string, c: string)
    requires LessEq(a, b) && LessEq(b, c) && (a != b || b != c)
    ensures Less(a, c)
  {
    LessEqTrans(a, b, c);
    if a == c {
      LessEqTotal(a, b);
    }
  }

  lemma {:induction false} PrefixLessEq(a: string, b: string)
    requires a <= b
    ensures LessEq(a, b)
  {
    if a != "" {
      assert a[1..] <= b[1..];
      PrefixLessEq(a[1..], b[1..]);
    }
  }

  predicate StrictlySorted(s: seq<string>) {
    forall i, j :: 0 <= i < j < |s| ==> Less(s[i], s[j])
  }

  predicate NoDuplicates<T(==)>(s: seq<T>) {
    forall i, j :: 0 <= i < j < |s| ==> s[i] != s[j]
  }

  /** A strictly sorted list is determined by its elements. */
  lemma {:induction false} StrictlySortedUnique(a: seq<string>, b: seq<string>)
    requires StrictlySorted(a) && StrictlySorted(b)
    requires forall x :: x in a <==> x in b
    ensures a == b
  {
    assert a != [] ==> a[0] in b;
    assert b != [] ==> b[0] in a;
    if a != [] {
      LessEqTotal(a[0], b[0]);
      HeadLeast(a, b[0]);
      HeadLeast(b, a[0]);
      TailElements(a);
      TailElements(b);
      StrictlySortedUnique(a[1..], b[1..]);
      assert a == [a[0]] + a[1..] && b == [b[0]] + b[1..];
    }
  }

  lemma HeadLeast(s: seq<string>, x: string)
    requires StrictlySorted(s) && x in s
    ensures LessEq(s[0], x)
  {
    var i :| 0 <= i < |s| && s[i] == x;
    if i == 0 { LessEqTotal(x, x); }
  }

  lemma TailElements(s: seq<string>)
    requires StrictlySorted(s) && s != []
    ensures StrictlySorted(s[1..])
    ensures forall x :: x in s[1..] <==> x in s && x != s[0]
  {
    assert s == [s[0]] + s[1..];
  }

  /** sort.Strings on a list without duplicates, by insertion. */
  function InsertString(x: string, s: seq<string>): seq<string> {
    if s == [] then [x]
    else if LessEq(x, s[0]) then [x] + s
    else [s[0]] + InsertString(x, s[1..])
  }

  function SortStrings(s: seq<string>): seq<string> {
    if s == [] then [] else InsertString(s[0], SortStrings(s[1..]))
  }

  lemma {:induction false} InsertStringSorted(x: string, s: seq<string>)
    requires StrictlySorted(s) && x !in s
    ensures StrictlySorted(InsertString(x, s))
    ensures |InsertString(x, s)| == |s| + 1
    ensures forall y :: y in InsertString(x, s) <==> y == x || y in s
  {
    if s == [] {
    } else if LessEq(x, s[0]) {
      forall j | 0 <= j < |s| ensures Less(x, s[j]) {
        if j > 0 { LessTrans(x, s[0], s[j]); }
      }
    } else {
      LessEqTotal(x, s[0]);
      InsertStringSorted(x, s[1..]);
      var r := InsertString(x, s[1..]);
      forall j | 0 <= j < |r| ensures Less(s[0], r[j]) {
        assert r[j] == x || r[j] in s[1..];
      }
      assert s == [s[0]] + s[1..];
    }
  }

  lemma {:induction false} SortStringsSorted(s: seq<string>)
    requires NoDuplicates(s)
    ensures StrictlySorted(SortStrings(s))
    ensures |SortStrings(s)| == |s|
    ensures forall y :: y in SortStrings(s) <==> y in s
  {
    if s != [] {
      SortStringsSorted(s[1..]);
      assert s[0] !in s[1..];
      InsertStringSorted(s[0], SortStrings(s[1..]));
      assert s == [s[0]] + s[1..];
    }
  }

  /** Sorting forgets the order the elements were enumerated in. */
  lemma SortStringsOrderFree(a: seq<string>, b: seq<string>)
    requires NoDuplicates(a) && NoDuplicates(b)
    requires forall x :: x in a <==> x in b
    ensures SortStrings(a) == SortStrings(b)
  {
    SortStringsSorted(a);
    SortStringsSorted(b);
    StrictlySortedUnique(SortStrings(a), SortStrings(b));
  }
}
