/**
 * The parts of java.lang.String, Integer and Boolean that the reader's core
 * relies on, written out over `string` (a sequence of UTF-16 code units is
 * modelled as a sequence of characters).
 */
module JavaText {
  import opened Wrappers

  // ---------------------------------------------------------------------
  // Character classes
  // ---------------------------------------------------------------------

  /** `String.trim` removes every leading and trailing character up to U+0020. */
  predicate IsTrimmable(c: char) { c <= ' ' }

  /** The regular-expression class `\s`, that is `[ \t\n\x0B\f\r]`. */
  predicate IsRegexSpace(c: char)
  {
    c == ' ' || c == '\t' || c == '\n' || c == '\U{0B}' || c == '\U{0C}' || c == '\r'
  }

  /** The line terminators of java.util.regex when UNIX_LINES is off. */
  predicate IsLineTerminator(c: char)
  {
    c == '\n' || c == '\r' || c == '\U{85}' || c == '\U{2028}' || c == '\U{2029}'
  }

  /** The regular-expression class `\d` (ASCII digits only). */
  predicate IsDigit(c: char) { '0' <= c <= '9' }

  predicate IsUpperLetter(c: char) { 'A' <= c <= 'Z' }

  /** Lower-casing of one character, restricted to the ASCII letters. */
  function ToLowerChar(c: char): (r: char)
    ensures IsUpperLetter(c) ==> r as int == c as int + 32
    ensures !IsUpperLetter(c) ==> r == c
  {
    if IsUpperLetter(c) then (c as int + 32) as char else c
  }

  /** `String.toLowerCase`, restricted to the ASCII letters. */
  function ToLower(s: string): (r: string)
    ensures |r| == |s|
    ensures forall i :: 0 <= i < |s| ==> r[i] == ToLowerChar(s[i])
  {
    seq(|s|, i requires 0 <= i < |s| => ToLowerChar(s[i]))
  }

  // ---------------------------------------------------------------------
  // Trimming
  // ---------------------------------------------------------------------

  /** No trimmable character at either end. */
  predicate IsTrimmed(s: string)
  {
    s == [] || (!IsTrimmable(s[0]) && !IsTrimmable(s[|s| - 1]))
  }

  /** `s.trim().isEmpty()`. */
  predicate IsBlank(s: string)
  {
    forall i :: 0 <= i < |s| ==> IsTrimmable(s[i])
  }

  /** The number of trimmable characters at the start of `s`. */
  function LeadingTrimmable(s: string): (n: nat)
    ensures n <= |s|
    ensures forall i :: 0 <= i < n ==> IsTrimmable(s[i])
    ensures n < |s| ==> !IsTrimmable(s[n])
    decreases |s|
  {
    if |s| > 0 && IsTrimmable(s[0]) then 1 + LeadingTrimmable(s[1..]) else 0
  }

  /** The index just after the last character of `s` that is not trimmable. */
  function TrailingStart(s: string): (n: nat)
    ensures n <= |s|
    ensures forall i :: n <= i < |s| ==> IsTrimmable(s[i])
    ensures n > 0 ==> !IsTrimmable(s[n - 1])
    decreases |s|
  {
    if |s| > 0 && IsTrimmable(s[|s| - 1]) then TrailingStart(s[..|s| - 1]) else |s|
  }

  /** `String.trim`. */
  function Trim(s: string): (r: string)
    ensures IsTrimmed(r)
    ensures r == [] <==> IsBlank(s)
    ensures r != [] ==> r == s[LeadingTrimmable(s)..TrailingStart(s)]
    ensures forall c :: c in r ==> c in s
    ensures IsTrimmed(s) ==> r == s
  {
    var a := LeadingTrimmable(s);
    if a == |s| then
      []
    else
      var b := TrailingStart(s);
      assert a < b;
      assert forall c :: c in s[a..b] ==> c in s;
      assert IsTrimmed(s) ==> a == 0 && b == |s|;
      s[a..b]
  }

  lemma TrimIdempotent(s: string)
    ensures Trim(Trim(s)) == Trim(s)
  {
  }

  /** A non-empty sequence is its prefix followed by its last element. */
  lemma SplitLast<T>(s: seq<T>)
    requires s != []
    ensures s == s[..|s| - 1] + [s[|s| - 1]]
  {
  }

  /** Two neighbouring slices make up the slice that spans both. */
  lemma SliceSplit(s: string, a: nat, b: nat, c: nat)
    requires a <= b <= c <= |s|
    ensures s[a..b] + s[b..c] == s[a..c]
  {
  }

  // ---------------------------------------------------------------------
  // Searching
  // ---------------------------------------------------------------------

  predicate MatchesAt(s: string, t: string, i: int)
  {
    0 <= i && i + |t| <= |s| && s[i..i + |t|] == t
  }

  /** `s.indexOf(t, from)` for `from` inside the string; -1 when absent. */
  function IndexOfFrom(s: string, t: string, from: nat): (r: int)
    requires from <= |s|
    ensures r == -1 || (from <= r && MatchesAt(s, t, r))
    ensures forall k :: from <= k && (r == -1 || k < r) ==> !MatchesAt(s, t, k)
    decreases |s| - from
  {
    if from + |t| > |s| then -1
    else if s[from..from + |t|] == t then from
    else if from == |s| then -1
    else IndexOfFrom(s, t, from + 1)
  }

  /** `s.indexOf(c, from)` for `from` inside the string; -1 when absent. */
  function FindChar(s: string, c: char, from: nat): (r: int)
    requires from <= |s|
    ensures r == -1 || (from <= r < |s| && s[r] == c)
    ensures forall k :: from <= k < |s| && (r == -1 || k < r) ==> s[k] != c
    decreases |s| - from
  {
    if from == |s| then -1 else if s[from] == c then from else FindChar(s, c, from + 1)
  }

  /** `s.contains(t)`. */
  predicate Contains(s: string, t: string)
  {
    IndexOfFrom(s, t, 0) >= 0
  }

  lemma ContainsIff(s: string, t: string)
    ensures Contains(s, t) <==> exists k :: MatchesAt(s, t, k)
  {
  }

  /** `s.startsWith(t)`. */
  predicate StartsWith(s: string, t: string) { |t| <= |s| && s[..|t|] == t }

  /** `s.endsWith(t)`. */
  predicate EndsWith(s: string, t: string) { |t| <= |s| && s[|s| - |t|..] == t }

  /** `s.indexOf(c)`. */
  function IndexOfChar(s: string, c: char): (r: int)
    ensures -1 <= r < |s|
    ensures r == -1 <==> c !in s
    ensures r >= 0 ==> s[r] == c && c !in s[..r]
    decreases |s|
  {
    if |s| == 0 then -1
    else if s[0] == c then 0
    else
      var k := IndexOfChar(s[1..], c);
      if k < 0 then -1 else k + 1
  }

  /** `s.lastIndexOf(c)`. */
  function LastIndexOfChar(s: string, c: char): (r: int)
    ensures -1 <= r < |s|
    ensures r == -1 <==> c !in s
    ensures r >= 0 ==> s[r] == c && c !in s[r + 1..]
    ensures forall k :: r < k < |s| ==> s[k] != c
    decreases |s|
  {
    if |s| == 0 then -1
    else if s[|s| - 1] == c then |s| - 1
    else
      var prefix := s[..|s| - 1];
      var r := LastIndexOfChar(prefix, c);
      assert s == prefix + [s[|s| - 1]];
      assert r >= 0 ==> s[r + 1..] == prefix[r + 1..] + [s[|s| - 1]];
      r
  }

  /** `s.lastIndexOf(c, from)` for `from` inside the string: the last `c` at or before `from`, -1 when none. */
  function LastIndexOfCharFrom(s: string, c: char, from: nat): (r: int)
    requires from < |s|
    ensures -1 <= r <= from
    ensures r >= 0 ==> s[r] == c
    ensures forall k :: r < k <= from ==> s[k] != c
    decreases from
  {
    if s[from] == c then from else if from == 0 then -1 else LastIndexOfCharFrom(s, c, from - 1)
  }

  // ---------------------------------------------------------------------
  // Literal replacement and splitting
  // ---------------------------------------------------------------------

  /** `s.replace(target, repl)`: left to right, non-overlapping, literal. */
  function Replace(s: string, target: string, repl: string): (r: string)
    requires |target| > 0
    ensures forall c :: c in r ==> c in s || c in repl
    ensures !Contains(s, target) ==> r == s
    decreases |s|
  {
    if |s| < |target| then s
    else if s[..|target|] == target then repl + Replace(s[|target|..], target, repl)
    else
      var rest := Replace(s[1..], target, repl);
      assert !Contains(s, target) ==> !Contains(s[1..], target) by {
        if !Contains(s, target) {
          forall k | MatchesAt(s[1..], target, k) ensures false {
            assert s[k + 1..k + 1 + |target|] == s[1..][k..k + |target|];
            assert MatchesAt(s, target, k + 1);
          }
        }
      }
      [s[0]] + rest
  }

  /** No string holds a pattern whose first character it lacks. */
  lemma NotContainsFirst(s: string, t: string)
    requires |t| > 0
    ensures t[0] !in s ==> !Contains(s, t)
  {
    if Contains(s, t) {
      var r := IndexOfFrom(s, t, 0);
      assert s[r..r + |t|][0] == s[r];
    }
  }

  /** Replacing a single character by text without it removes every occurrence. */
  lemma {:induction false} ReplaceRemovesChar(s: string, target: string, repl: string)
    requires |target| == 1 && target[0] !in repl
    ensures target[0] !in Replace(s, target, repl)
    decreases |s|
  {
    if |s| >= |target| {
      if s[..|target|] == target {
        ReplaceRemovesChar(s[|target|..], target, repl);
      } else {
        ReplaceRemovesChar(s[1..], target, repl);
        assert s[0] != target[0] by { assert s[..1] == [s[0]]; }
      }
    }
  }

  /** One step of a loop that builds `ys[j] == f(xs[j])` element by element. */
  lemma MapStep<A, B>(f: A -> B, xs: seq<A>, ys: seq<B>, y: B)
    requires |ys| < |xs| && y == f(xs[|ys|])
    requires forall j :: 0 <= j < |ys| ==> ys[j] == f(xs[j])
    ensures forall j :: 0 <= j < |ys| + 1 ==> (ys + [y])[j] == f(xs[j])
  {
  }

  /** A prefix that cannot start a match is copied through unchanged. */
  lemma {:induction false} ReplaceThroughPlain(u: string, tail: string, target: string, repl: string)
    requires |target| > 0 && target[0] !in u
    ensures Replace(u + tail, target, repl) == u + Replace(tail, target, repl)
    decreases |u|
  {
    if u == [] {
      assert u + tail == tail;
    } else if |u + tail| < |target| {
      ReplaceNoMatchHere(u + tail, target, repl);
      ReplaceNoMatchHere(tail, target, repl);
    } else {
      assert target[0] !in u[1..];
      ReplaceThroughPlain(u[1..], tail, target, repl);
      ReplaceConsPlain(u, tail, target, repl);
    }
  }

  /** One step of `ReplaceThroughPlain`: the first character is copied, the rest is the smaller case. */
  lemma ReplaceConsPlain(u: string, tail: string, target: string, repl: string)
    requires |target| > 0 && u != [] && u[0] != target[0] && |u + tail| >= |target|
    requires Replace(u[1..] + tail, target, repl) == u[1..] + Replace(tail, target, repl)
    ensures Replace(u + tail, target, repl) == u + Replace(tail, target, repl)
  {
    ReplaceSkipFirst(u, tail, target, repl);
    ConsSplit(u, Replace(tail, target, repl));
  }

  lemma ReplaceSkipFirst(u: string, tail: string, target: string, repl: string)
    requires |target| > 0 && u != [] && u[0] != target[0] && |u + tail| >= |target|
    ensures Replace(u + tail, target, repl) == [u[0]] + Replace(u[1..] + tail, target, repl)
  {
    var s := u + tail;
    assert s[0] == u[0];
    assert s[1..] == u[1..] + tail;
    ReplaceNoMatchHere(s, target, repl);
  }

  lemma ConsSplit<T>(u: seq<T>, r: seq<T>)
    requires u != []
    ensures [u[0]] + (u[1..] + r) == u + r
  {
    assert u == [u[0]] + u[1..];
  }

  /** A text that does not start with the target's first character keeps that character. */
  lemma ReplaceNoMatchHere(s: string, target: string, repl: string)
    requires |target| > 0 && (|s| < |target| || s[0] != target[0])
    ensures |s| < |target| ==> Replace(s, target, repl) == s
    ensures |s| >= |target| ==> Replace(s, target, repl) == [s[0]] + Replace(s[1..], target, repl)
  {
    if |s| >= |target| {
      assert s[..|target|][0] == s[0];
    }
  }

  /** Replacing by something no longer than the target never lengthens the text. */
  lemma {:induction false} ReplaceShrinks(s: string, target: string, repl: string)
    requires |target| > 0 && |repl| <= |target|
    ensures |Replace(s, target, repl)| <= |s|
    decreases |s|
  {
    if |s| >= |target| {
      if s[..|target|] == target {
        ReplaceShrinks(s[|target|..], target, repl);
      } else {
        ReplaceShrinks(s[1..], target, repl);
      }
    }
  }

  /** The pieces joined back with the separator between them. */
  function Join(parts: seq<string>, sep: char): string
    requires |parts| >= 1
  {
    if |parts| == 1 then parts[0] else parts[0] + [sep] + Join(parts[1..], sep)
  }

  /** Joining two non-empty lists of pieces puts one separator between them. */
  lemma {:induction false} JoinAppend(a: seq<string>, b: seq<string>, sep: char)
    requires |a| >= 1 && |b| >= 1
    ensures Join(a + b, sep) == Join(a, sep) + [sep] + Join(b, sep)
    decreases |a|
  {
    assert (a + b)[0] == a[0];
    if |a| == 1 {
      assert (a + b)[1..] == b;
    } else {
      assert (a + b)[1..] == a[1..] + b;
      JoinAppend(a[1..], b, sep);
    }
  }

  /** `s.split(sep, -1)` for a one-character literal separator. */
  function SplitAll(s: string, sep: char): (r: seq<string>)
    ensures |r| >= 1
    ensures forall k :: 0 <= k < |r| ==> sep !in r[k]
    ensures Join(r, sep) == s
    decreases |s|
  {
    var i := IndexOfChar(s, sep);
    if i < 0 then [s]
    else
      var rest := SplitAll(s[i + 1..], sep);
      assert ([s[..i]] + rest)[1..] == rest;
      assert s == s[..i] + [sep] + s[i + 1..];
      [s[..i]] + rest
  }

  /** Every piece trimmed. */
  function TrimAll(lines: seq<string>): (r: seq<string>)
    ensures |r| == |lines|
    ensures forall k :: 0 <= k < |lines| ==> r[k] == Trim(lines[k])
  {
    seq(|lines|, k requires 0 <= k < |lines| => Trim(lines[k]))
  }

  lemma TrimAllAppend(a: seq<string>, b: seq<string>)
    ensures TrimAll(a + b) == TrimAll(a) + TrimAll(b)
  {
  }

  /** The groups concatenated in order. */
  function Flatten<T>(groups: seq<seq<T>>): seq<T>
    decreases |groups|
  {
    if groups == [] then [] else Flatten(groups[..|groups| - 1]) + groups[|groups| - 1]
  }

  /** Flattening a group followed by more groups puts the group first. */
  lemma {:induction false} FlattenCons<T>(x: seq<T>, rest: seq<seq<T>>)
    ensures Flatten([x] + rest) == x + Flatten(rest)
    decreases |rest|
  {
    if rest != [] {
      var init := rest[..|rest| - 1];
      FlattenCons(x, init);
      assert ([x] + rest)[..|rest|] == [x] + init;
    }
  }

  /** Groups that start with `s[a..b]` and go on with groups flattening to `s[b..]` flatten to `s[a..]`. */
  lemma FlattenSliceCons<T>(s: seq<T>, a: nat, b: nat, whole: seq<seq<T>>, rest: seq<seq<T>>)
    requires a <= b <= |s| && whole == [s[a..b]] + rest && Flatten(rest) == s[b..]
    ensures Flatten(whole) == s[a..]
  {
    FlattenCons(s[a..b], rest);
    assert s[a..] == s[a..b] + s[b..];
  }

  /** Joining non-empty trimmed pieces by spaces keeps the first and the last character. */
  lemma {:induction false} JoinOfTrimmed(ts: seq<string>)
    requires ts != []
    requires forall j :: 0 <= j < |ts| ==> ts[j] != [] && IsTrimmed(ts[j])
    ensures Join(ts, ' ') != []
    ensures Join(ts, ' ')[0] == ts[0][0]
    ensures Join(ts, ' ')[|Join(ts, ' ')| - 1] == ts[|ts| - 1][|ts[|ts| - 1]| - 1]
    ensures IsTrimmed(Join(ts, ' '))
    decreases |ts|
  {
    if |ts| > 1 {
      JoinOfTrimmed(ts[1..]);
    }
  }

  /** The pieces joined with a separator string, as a `StringBuilder` loop builds them; "" for no pieces. */
  function JoinWith(parts: seq<string>, sep: string): string
    decreases |parts|
  {
    if parts == [] then []
    else if |parts| == 1 then parts[0]
    else JoinWith(parts[..|parts| - 1], sep) + sep + parts[|parts| - 1]
  }

  /** Joining non-empty trimmed pieces keeps the first piece's first and the last piece's last character. */
  lemma {:induction false} JoinWithEnds(parts: seq<string>, sep: string)
    requires parts != []
    requires forall j :: 0 <= j < |parts| ==> parts[j] != [] && IsTrimmed(parts[j])
    ensures JoinWith(parts, sep) != []
    ensures JoinWith(parts, sep)[0] == parts[0][0]
    ensures JoinWith(parts, sep)[|JoinWith(parts, sep)| - 1] == parts[|parts| - 1][|parts[|parts| - 1]| - 1]
    ensures IsTrimmed(JoinWith(parts, sep))
    decreases |parts|
  {
    if |parts| > 1 {
      JoinWithEnds(parts[..|parts| - 1], sep);
    }
  }

  /** Trimming a trimmed non-empty text followed by blanks gives the text back. */
  lemma TrimAppendBlank(x: string, tail: string)
    requires x != [] && IsTrimmed(x) && IsBlank(tail)
    ensures Trim(x + tail) == x
  {
    var s := x + tail;
    assert s[0] == x[0] && s[|x| - 1] == x[|x| - 1];
    assert forall k :: |x| <= k < |s| ==> s[k] == tail[k - |x|];
    TrailingAfter(s, |x|);
    var a := LeadingTrimmable(s);
    assert a == 0;
    assert s[..|x|] == x;
  }

  /** The trailing trimmable run starts right after the last non-trimmable character. */
  lemma {:induction false} TrailingAfter(s: string, n: nat)
    requires 0 < n <= |s| && !IsTrimmable(s[n - 1])
    requires forall k :: n <= k < |s| ==> IsTrimmable(s[k])
    ensures TrailingStart(s) == n
    decreases |s|
  {
    if |s| > n {
      TrailingAfter(s[..|s| - 1], n);
    }
  }

  /** The elements `x` of `s` with `p(a, x)`, in their order (a stream filter whose test depends on `a`). */
  function FilterWith<A, T(!new)>(s: seq<T>, p: (A, T) -> bool, a: A): (r: seq<T>)
    ensures |r| <= |s|
  {
    if s == [] then []
    else if p(a, s[0]) then [s[0]] + FilterWith(s[1..], p, a)
    else FilterWith(s[1..], p, a)
  }

  /** The filter keeps exactly the elements that pass. */
  lemma {:induction false} FilterWithMembers<A, T(!new)>(s: seq<T>, p: (A, T) -> bool, a: A)
    ensures forall x :: x in FilterWith(s, p, a) <==> x in s && p(a, x)
    decreases |s|
  {
    if s != [] {
      FilterWithMembers(s[1..], p, a);
      FilterWithFirst(s, p, a);
      assert s == [s[0]] + s[1..];
    }
  }

  /** Filtering a concatenation filters each part in turn, so the order is kept. */
  lemma {:induction false} FilterWithAppend<A, T(!new)>(s: seq<T>, t: seq<T>, p: (A, T) -> bool, a: A)
    ensures FilterWith(s + t, p, a) == FilterWith(s, p, a) + FilterWith(t, p, a)
    decreases |s|
  {
    if s == [] {
      assert s + t == t;
    } else {
      var head := if p(a, s[0]) then [s[0]] else [];
      FilterWithFirst(s + t, p, a);
      FilterWithFirst(s, p, a);
      assert (s + t)[0] == s[0];
      assert (s + t)[1..] == s[1..] + t;
      FilterWithAppend(s[1..], t, p, a);
      assert head + (FilterWith(s[1..], p, a) + FilterWith(t, p, a))
        == (head + FilterWith(s[1..], p, a)) + FilterWith(t, p, a);
    }
  }

  lemma FilterWithFirst<A, T(!new)>(s: seq<T>, p: (A, T) -> bool, a: A)
    requires s != []
    ensures FilterWith(s, p, a) == (if p(a, s[0]) then [s[0]] else []) + FilterWith(s[1..], p, a)
  {
    if !p(a, s[0]) {
      assert [] + FilterWith(s[1..], p, a) == FilterWith(s[1..], p, a);
    }
  }

  /** A filter every element passes keeps the whole sequence. */
  lemma {:induction false} FilterWithAll<A, T(!new)>(s: seq<T>, p: (A, T) -> bool, a: A)
    requires forall x :: x in s ==> p(a, x)
    ensures FilterWith(s, p, a) == s
    decreases |s|
  {
    if s != [] {
      assert forall x :: x in s[1..] ==> x in s;
      FilterWithAll(s[1..], p, a);
    }
  }

  /** One more element at the end of a filtered prefix. */
  lemma FilterWithStep<A, T(!new)>(s: seq<T>, i: nat, p: (A, T) -> bool, a: A)
    requires i < |s|
    ensures FilterWith(s[..i + 1], p, a) ==
              FilterWith(s[..i], p, a) + (if p(a, s[i]) then [s[i]] else [])
  {
    assert s[..i + 1] == s[..i] + [s[i]];
    FilterWithAppend(s[..i], [s[i]], p, a);
    assert [s[i]][1..] == [];
  }

  // Lists of objects told apart by identity: each element carries a
  // reference number, read through `key`.

  /** No two elements share a reference. */
  predicate UniqueRefs<T>(s: seq<T>, key: T -> nat)
  {
    forall i, j :: 0 <= i < j < |s| ==> key(s[i]) != key(s[j])
  }

  /** Every reference lies below `bound`. */
  predicate RefsBelow<T>(s: seq<T>, key: T -> nat, bound: nat)
  {
    forall i :: 0 <= i < |s| ==> key(s[i]) < bound
  }

  /** Appending an element with reference `bound` keeps references unique and raises the bound by one. */
  lemma AppendFreshRef<T>(s: seq<T>, key: T -> nat, x: T, bound: nat)
    requires UniqueRefs(s, key) && RefsBelow(s, key, bound) && key(x) == bound
    ensures UniqueRefs(s + [x], key) && RefsBelow(s + [x], key, bound + 1)
  {
    var t := s + [x];
    assert forall i :: 0 <= i < |s| ==> t[i] == s[i];
  }

  /** The position of the first element with reference `k`, -1 when there is none. */
  function FirstIndex<T>(s: seq<T>, key: T -> nat, k: nat): (i: int)
    ensures -1 <= i < |s|
    ensures i == -1 <==> forall j :: 0 <= j < |s| ==> key(s[j]) != k
    ensures i >= 0 ==> key(s[i]) == k && forall j :: 0 <= j < i ==> key(s[j]) != k
  {
    if s == [] then -1
    else if key(s[0]) == k then 0
    else
      var i := FirstIndex(s[1..], key, k);
      assert forall j :: 0 < j < |s| ==> s[1..][j - 1] == s[j];
      if i < 0 then -1 else i + 1
  }

  /**
   * `List.remove(Object)`: drops the first element with reference `k`; the
   * list is unchanged when there is none.
   */
  function RemoveFirst<T>(s: seq<T>, key: T -> nat, k: nat): (r: seq<T>)
    ensures FirstIndex(s, key, k) < 0 ==> r == s
    ensures FirstIndex(s, key, k) >= 0 ==> |r| == |s| - 1
    ensures var i := FirstIndex(s, key, k);
            forall m :: 0 <= m < |r| ==> r[m] == s[if i < 0 || m < i then m else m + 1]
  {
    var i := FirstIndex(s, key, k);
    if i < 0 then s else s[..i] + s[i + 1..]
  }

  /** With unique references, removing the first match removes every match and only it. */
  lemma RemoveFirstExactly<T>(s: seq<T>, key: T -> nat, k: nat)
    requires UniqueRefs(s, key)
    ensures forall x :: x in RemoveFirst(s, key, k) <==> x in s && key(x) != k
  {
    RemoveFirstLeaves(s, key, k);
    RemoveFirstKeeps(s, key, k);
  }

  /** Where the `m`-th remaining element came from: before the removed one, or just after it. */
  lemma RemoveFirstAt<T>(s: seq<T>, key: T -> nat, k: nat, m: nat) returns (m': nat)
    requires m < |RemoveFirst(s, key, k)|
    ensures m' < |s| && RemoveFirst(s, key, k)[m] == s[m'] && m' != FirstIndex(s, key, k)
    ensures m' == if FirstIndex(s, key, k) < 0 || m < FirstIndex(s, key, k) then m else m + 1
  {
    var i := FirstIndex(s, key, k);
    m' := if i < 0 || m < i then m else m + 1;
  }

  lemma RemoveFirstLeaves<T>(s: seq<T>, key: T -> nat, k: nat)
    requires UniqueRefs(s, key)
    ensures forall m :: 0 <= m < |RemoveFirst(s, key, k)| ==>
              key(RemoveFirst(s, key, k)[m]) != k && RemoveFirst(s, key, k)[m] in s
  {
    var r := RemoveFirst(s, key, k);
    forall m | 0 <= m < |r|
      ensures key(r[m]) != k && r[m] in s
    {
      var m' := RemoveFirstAt(s, key, k, m);
      var i := FirstIndex(s, key, k);
      if i >= 0 {
        assert key(s[m']) != key(s[i]);
      }
    }
  }

  lemma RemoveFirstKeeps<T>(s: seq<T>, key: T -> nat, k: nat)
    ensures forall m :: 0 <= m < |s| && key(s[m]) != k ==> s[m] in RemoveFirst(s, key, k)
  {
    forall m | 0 <= m < |s| && key(s[m]) != k
      ensures s[m] in RemoveFirst(s, key, k)
    {
      RemoveFirstKeepsAt(s, key, k, m);
    }
  }

  lemma RemoveFirstKeepsAt<T>(s: seq<T>, key: T -> nat, k: nat, m: nat)
    requires m < |s| && key(s[m]) != k
    ensures s[m] in RemoveFirst(s, key, k)
  {
    var r := RemoveFirst(s, key, k);
    var i := FirstIndex(s, key, k);
    if i < 0 {
      assert r == s;
    } else if m < i {
      assert r[m] == s[m];
    } else {
      assert m > i && r[m - 1] == s[m];
    }
  }

  /** Removing an element keeps references unique and below the bound. */
  lemma RemoveFirstKeepsRefs<T>(s: seq<T>, key: T -> nat, k: nat, bound: nat)
    requires UniqueRefs(s, key) && RefsBelow(s, key, bound)
    ensures UniqueRefs(RemoveFirst(s, key, k), key) && RefsBelow(RemoveFirst(s, key, k), key, bound)
  {
    var r := RemoveFirst(s, key, k);
    forall m, n | 0 <= m < n < |r|
      ensures key(r[m]) != key(r[n])
    {
      var m' := RemoveFirstAt(s, key, k, m);
      var n' := RemoveFirstAt(s, key, k, n);
    }
    forall m | 0 <= m < |r|
      ensures key(r[m]) < bound
    {
      var m' := RemoveFirstAt(s, key, k, m);
    }
  }

  /** The non-empty entries, in order. */
  function NonEmpty(ts: seq<string>): (r: seq<string>)
    ensures |r| <= |ts|
    decreases |ts|
  {
    if ts == [] then []
    else
      var init := NonEmpty(ts[..|ts| - 1]);
      if ts[|ts| - 1] == [] then init else init + [ts[|ts| - 1]]
  }

  /** Every kept entry comes from the input. */
  lemma {:induction false} NonEmptyOf(ts: seq<string>, x: string)
    requires x in NonEmpty(ts)
    ensures x in ts
    decreases |ts|
  {
    var init := ts[..|ts| - 1];
    if x in NonEmpty(init) {
      NonEmptyOf(init, x);
    }
  }

  /** The pieces without their run of trailing empty strings. */
  function DropTrailingEmpty(parts: seq<string>): (r: seq<string>)
    ensures |r| <= |parts| && r == parts[..|r|]
    ensures r == [] || r[|r| - 1] != []
    ensures forall k :: |r| <= k < |parts| ==> parts[k] == []
    decreases |parts|
  {
    if |parts| > 0 && parts[|parts| - 1] == [] then DropTrailingEmpty(parts[..|parts| - 1])
    else parts
  }

  /**
   * `s.split(sep)` with no limit: when the separator occurs, trailing empty
   * pieces are dropped; when it does not, the result is `[s]` even for "".
   */
  function Split(s: string, sep: char): (r: seq<string>)
  {
    if sep !in s then [s] else DropTrailingEmpty(SplitAll(s, sep))
  }

  // ---------------------------------------------------------------------
  // Decimal integers
  // ---------------------------------------------------------------------

  const INT_MIN: int := -0x8000_0000
  const INT_MAX: int := 0x7fff_ffff

  /** A value of Java's 32-bit `int`. */
  predicate IsInt32(n: int) { INT_MIN <= n <= INT_MAX }

  function DigitChar(d: nat): (c: char)
    requires d < 10
    ensures IsDigit(c)
  {
    ('0' as int + d) as char
  }

  predicate AllDigits(s: string) { forall i :: 0 <= i < |s| ==> IsDigit(s[i]) }

  function DigitsValue(s: string): nat
    requires AllDigits(s)
    decreases |s|
  {
    if s == [] then 0 else DigitsValue(s[..|s| - 1]) * 10 + (s[|s| - 1] as int - '0' as int)
  }

  /** `String.valueOf(n)` for a non-negative integer: decimal, no leading zero. */
  function NatToString(n: nat): (r: string)
    ensures |r| >= 1 && AllDigits(r)
    ensures |r| > 1 ==> r[0] != '0'
    decreases n
  {
    if n < 10 then [DigitChar(n)] else NatToString(n / 10) + [DigitChar(n % 10)]
  }

  /** `String.valueOf(n)` for any integer. */
  function IntToString(n: int): (r: string)
    ensures |r| >= 1
  {
    if n < 0 then "-" + NatToString(-n) else NatToString(n)
  }

  lemma {:induction false} NatToStringValue(n: nat)
    ensures DigitsValue(NatToString(n)) == n
    decreases n
  {
    if n >= 10 {
      NatToStringValue(n / 10);
      var s := NatToString(n);
      assert s[..|s| - 1] == NatToString(n / 10);
    }
  }

  /** Distinct numbers print differently, so " (n)" suffixes never repeat. */
  lemma NatToStringInjective(m: nat, n: nat)
    requires NatToString(m) == NatToString(n)
    ensures m == n
  {
    NatToStringValue(m);
    NatToStringValue(n);
  }

  /**
   * `Integer.parseInt`: an optional sign, at least one digit, and a value
   * inside the 32-bit range; anything else is a NumberFormatException.
   */
  function ParseInt(s: string): (r: Option<int>)
    ensures r.Some? ==> IsInt32(r.value)
    ensures s == [] ==> r == None
  {
    if |s| == 0 then None
    else
      var digits := if s[0] == '-' || s[0] == '+' then s[1..] else s;
      if |digits| == 0 || !AllDigits(digits) then None
      else
        var mag: int := DigitsValue(digits);
        var v := if s[0] == '-' then -mag else mag;
        if IsInt32(v) then Some(v) else None
  }

  /** Printing an int and parsing it back gives the same int. */
  lemma ParseIntOfIntToString(n: int)
    requires IsInt32(n)
    ensures ParseInt(IntToString(n)) == Some(n)
  {
    if n < 0 {
      ParseIntOfSigned(NatToString(-n), -n);
    } else {
      NatToStringValue(n);
      ParseIntOfDigits(NatToString(n), n);
    }
  }

  /** A digit string of an int's value parses to that value. */
  lemma ParseIntOfDigits(d: string, n: nat)
    requires |d| >= 1 && AllDigits(d) && DigitsValue(d) == n && n <= INT_MAX
    ensures ParseInt(d) == Some(n)
  {
    assert IsDigit(d[0]);
  }

  /** A minus sign before a digit string of value n parses to -n, inside the int range. */
  lemma ParseIntOfSigned(d: string, n: nat)
    requires d == NatToString(n) && n <= -INT_MIN
    ensures ParseInt("-" + d) == Some(-(n as int))
  {
    NatToStringValue(n);
    var s := "-" + d;
    assert s[0] == '-' && s[1..] == d;
  }

  /**
   * Two digit strings joined by a separator that starts with a non-digit
   * can be read back: the text determines both numbers' strings.
   */
  lemma DigitsSeparatedInjective(a: string, b: string, c: string, d: string, sep: string)
    requires AllDigits(a) && AllDigits(c) && sep != [] && !IsDigit(sep[0])
    requires a + sep + b == c + sep + d
    ensures a == c && b == d
  {
    var x := a + sep + b;
    assert x == a + (sep + b) == c + (sep + d);
    DigitRun(a, sep + b);
    DigitRun(c, sep + d);
    assert |a| == |c|;
    assert a == x[..|a|];
    assert c == x[..|c|];
    assert b == x[|a| + |sep|..];
  }

  /** A run of digits ends exactly where the first non-digit follows it. */
  lemma DigitRun(a: string, rest: string)
    requires AllDigits(a) && rest != [] && !IsDigit(rest[0])
    ensures forall k :: 0 <= k < |a| ==> IsDigit((a + rest)[k])
    ensures !IsDigit((a + rest)[|a|])
  {
  }

  /** `"<prefix><i> / <n>"` for non-negative counters names the pair it was built from. */
  lemma CounterLabelInjective(prefix: string, i: nat, n: nat, j: nat, m: nat)
    requires prefix + IntToString(i) + " / " + IntToString(n) == prefix + IntToString(j) + " / " + IntToString(m)
    ensures i == j && n == m
  {
    var x := prefix + IntToString(i) + " / " + IntToString(n);
    var y := prefix + IntToString(j) + " / " + IntToString(m);
    assert x[|prefix|..] == IntToString(i) + " / " + IntToString(n);
    assert y[|prefix|..] == IntToString(j) + " / " + IntToString(m);
    DigitsSeparatedInjective(IntToString(i), IntToString(n), IntToString(j), IntToString(m), " / ");
    NatToStringInjective(i, j);
    NatToStringInjective(n, m);
  }

  // ---------------------------------------------------------------------
  // java.util.Properties
  // ---------------------------------------------------------------------

  /** A properties table: string keys to string values. */
  type Properties = map<string, string>

  /** `getProperty(key, default)`. */
  function GetProperty(p: Properties, key: string, default: string): (r: string)
    ensures key in p ==> r == p[key]
    ensures key !in p ==> r == default
  {
    if key in p then p[key] else default
  }

  /**
   * `String.valueOf(double)` and `Double.parseDouble`, taken as given: a
   * double is modelled as a real, `values` are the reals that are Java
   * doubles, and only the facts in `ReadsBack` are relied on.
   */
  datatype DoubleText = DoubleText(show: real -> string, parse: string -> Option<real>, values: set<real>)

  /**
   * Parsing what was printed gives a double back, every parsed text is a
   * double, and 1.0 is a double that prints as "1.0".
   */
  ghost predicate ReadsBack(d: DoubleText)
  {
    && (forall x | x in d.values :: d.parse(d.show(x)) == Some(x))
    && (forall s :: d.parse(s).Some? ==> d.parse(s).value in d.values)
    && 1.0 in d.values && d.show(1.0) == "1.0"
  }

  /** A text form that knows the single double 1.0. */
  function OneDoubleText(): DoubleText
  {
    DoubleText(x => "1.0", s => if s == "1.0" then Some(1.0) else None, {1.0})
  }

  /** `ReadsBack` can be met: the requirement is not vacuous. */
  lemma ReadsBackSatisfiable()
    ensures ReadsBack(OneDoubleText())
  {
  }

  /** `String.valueOf(boolean)`. */
  function BoolToString(b: bool): string { if b then "true" else "false" }

  /** `Boolean.parseBoolean`: "true" in any letter case. */
  predicate ParseBoolean(s: string) { ToLower(s) == "true" }

  lemma ParseBooleanOfBoolToString(b: bool)
    ensures ParseBoolean(BoolToString(b)) == b
  {
    if b {
      assert ToLower("true") == "true";
    } else {
      assert ToLower("false")[0] == 'f';
    }
  }
}
