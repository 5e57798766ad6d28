/** Python string and path operations used by the command core, written out
    over `string` (`seq<char>`): `in` on strings, `startswith`, `join`,
    `rstrip`, `%d` formatting, `os.path.basename`/`dirname`, `list.sort` on
    strings and `subprocess.list2cmdline`. */
module Text {

  datatype Option<T> = None | Some(value: T)

  // ---------------------------------------------------------------------
  // Substrings and prefixes

  /** Python's `startswith` on strings, and the same test on lists. */
  predicate StartsWith<T(==)>(s: seq<T>, prefix: seq<T>) {
    |prefix| <= |s| && s[..|prefix|] == prefix
  }

  predicate EndsWith(s: string, suffix: string) {
    |suffix| <= |s| && s[|s| - |suffix|..] == suffix
  }

  /** Python's `needle in haystack` for strings. */
  predicate Contains(haystack: string, needle: string) {
    exists i | 0 <= i <= |haystack| :: OccursAt(haystack, needle, i)
  }

  /** `needle` occurs in `haystack` starting at position `i`. */
  predicate OccursAt(haystack: string, needle: string, i: int) {
    0 <= i && i + |needle| <= |haystack| && haystack[i..i + |needle|] == needle
  }

  lemma ContainsAt(haystack: string, needle: string, i: nat)
    requires OccursAt(haystack, needle, i)
    ensures Contains(haystack, needle)
  {
  }

  /** A concatenation starts with its first part and ends with its last. */
  lemma AppendEnds(a: string, b: string)
    ensures StartsWith(a + b, a) && EndsWith(a + b, b)
  {
    assert (a + b)[..|a|] == a;
    assert (a + b)[|a|..] == b;
  }

  lemma StartsWithTransitive(a: string, b: string, c: string)
    requires StartsWith(a, b) && StartsWith(b, c)
    ensures StartsWith(a, c)
  {
    assert a[..|c|] == a[..|b|][..|c|];
  }

  /** A string contains every string that ends it. */
  lemma {:induction false} ContainsSuffix(prefix: string, needle: string)
    ensures Contains(prefix + needle, needle)
  {
    var s := prefix + needle;
    assert s[|prefix|..|prefix| + |needle|] == needle;
    ContainsAt(s, needle, |prefix|);
  }

  /** Containment survives adding text on either side. */
  lemma {:induction false} ContainsInside(pre: string, mid: string, post: string, needle: string)
    requires Contains(mid, needle)
    ensures Contains(pre + mid + post, needle)
  {
    var i: int :| 0 <= i <= |mid| && OccursAt(mid, needle, i);
    assert 0 <= i && i + |needle| <= |mid| && mid[i..i + |needle|] == needle;
    var s := pre + mid + post;
    assert s[|pre| + i..|pre| + i + |needle|] == mid[i..i + |needle|];
    ContainsAt(s, needle, |pre| + i);
  }

  lemma ContainsPrepend(pre: string, s: string, needle: string)
    requires Contains(s, needle)
    ensures Contains(pre + s, needle)
  {
    ContainsInside(pre, s, "", needle);
    assert pre + s + "" == pre + s;
  }

  lemma ContainsAppend(s: string, post: string, needle: string)
    requires Contains(s, needle)
    ensures Contains(s + post, needle)
  {
    ContainsInside("", s, post, needle);
    assert "" + s + post == s + post;
  }

  lemma ContainsSelf(s: string)
    ensures Contains(s, s)
  {
    assert s[0..|s|] == s;
    ContainsAt(s, s, 0);
  }

  // ---------------------------------------------------------------------
  // str.join

  /** `sep.join(items)`. */
  function Join(sep: string, items: seq<string>): string {
    if |items| == 0 then ""
    else if |items| == 1 then items[0]
    else items[0] + sep + Join(sep, items[1..])
  }

  /** Every joined item occurs in the joined text. */
  lemma {:induction false} JoinContains(sep: string, items: seq<string>, k: nat)
    requires k < |items|
    ensures Contains(Join(sep, items), items[k])
  {
    if |items| == 1 {
      ContainsSelf(items[0]);
    } else if k == 0 {
      assert Join(sep, items) == items[0] + (sep + Join(sep, items[1..]));
      ContainsInside("", items[0], sep + Join(sep, items[1..]), items[0]) by { ContainsSelf(items[0]); }
      assert "" + items[0] + (sep + Join(sep, items[1..])) == Join(sep, items);
    } else {
      JoinContains(sep, items[1..], k - 1);
      assert items[1..][k - 1] == items[k];
      ContainsInside(items[0] + sep, Join(sep, items[1..]), "", items[k]);
      assert items[0] + sep + Join(sep, items[1..]) + "" == Join(sep, items);
    }
  }

  /** The joined text is as long as the items plus one separator between each pair. */
  lemma {:induction false} JoinLength(sep: string, items: seq<string>)
    requires |items| > 0
    ensures |Join(sep, items)| == TotalLength(items) + (|items| - 1) * |sep|
  {
    if |items| > 1 {
      JoinLength(sep, items[1..]);
    }
  }

  function TotalLength(items: seq<string>): nat {
    if |items| == 0 then 0 else |items[0]| + TotalLength(items[1..])
  }

  /** `f(0) + f(1) + ... + f(k - 1)`: text written piece by piece in a loop. */
  function ConcatMap(f: nat -> string, k: nat): string {
    if k == 0 then "" else ConcatMap(f, k - 1) + f(k - 1)
  }

  /** Text written so far is a prefix of the text written later. */
  lemma {:induction false} ConcatMapPrefix(f: nat -> string, j: nat, k: nat)
    requires j <= k
    ensures StartsWith(ConcatMap(f, k), ConcatMap(f, j))
  {
    if j < k {
      ConcatMapPrefix(f, j, k - 1);
      var a := ConcatMap(f, k - 1);
      var b := ConcatMap(f, j);
      assert (a + f(k - 1))[..|b|] == a[..|b|];
    } else {
      assert ConcatMap(f, k)[..|ConcatMap(f, k)|] == ConcatMap(f, k);
    }
  }

  /** Each piece follows all the pieces before it. */
  lemma ConcatMapPiece(f: nat -> string, i: nat, k: nat)
    requires i < k
    ensures StartsWith(ConcatMap(f, k), ConcatMap(f, i) + f(i))
  {
    ConcatMapPrefix(f, i + 1, k);
  }

  /** Every piece occurs in the text. */
  lemma ConcatMapContains(f: nat -> string, i: nat, k: nat)
    requires i < k
    ensures Contains(ConcatMap(f, k), f(i))
  {
    ConcatMapPrefix(f, i + 1, k);
    var whole := ConcatMap(f, k);
    var upto := ConcatMap(f, i + 1);
    assert whole == ConcatMap(f, i) + f(i) + whole[|upto|..];
    ContainsSelf(f(i));
    ContainsInside(ConcatMap(f, i), f(i), whole[|upto|..], f(i));
  }

  /** `''.join(items)`: plain concatenation. */
  function Concat(items: seq<string>): string {
    if |items| == 0 then "" else items[0] + Concat(items[1..])
  }

  lemma {:induction false} ConcatSnoc(items: seq<string>, x: string)
    ensures Concat(items + [x]) == Concat(items) + x
  {
    if |items| == 0 {
      assert items + [x] == [x];
    } else {
      assert (items + [x])[1..] == items[1..] + [x];
      ConcatSnoc(items[1..], x);
    }
  }

  lemma {:induction false} ConcatContains(items: seq<string>, k: nat)
    requires k < |items|
    ensures Contains(Concat(items), items[k])
  {
    if k == 0 {
      ContainsSelf(items[0]);
      ContainsInside("", items[0], Concat(items[1..]), items[0]);
      assert "" + items[0] + Concat(items[1..]) == Concat(items);
    } else {
      ConcatContains(items[1..], k - 1);
      assert items[1..][k - 1] == items[k];
      ContainsInside(items[0], Concat(items[1..]), "", items[k]);
      assert items[0] + Concat(items[1..]) + "" == Concat(items);
    }
  }

  // ---------------------------------------------------------------------
  // str.rstrip() with no argument

  /** The characters Python 2's `unicode.rstrip()` removes: the ASCII
      white space, the separators U+001C to U+001F, and the Unicode 5.2
      space characters. */
  predicate IsSpace(c: char) {
    var n := c as int;
    (9 <= n <= 13) || (28 <= n <= 32) || n == 0x85 || n == 0xA0 || n == 0x1680 || n == 0x180E ||
    (0x2000 <= n <= 0x200A) || n == 0x2028 || n == 0x2029 || n == 0x202F || n == 0x205F || n == 0x3000
  }

  function RStrip(s: string): string {
    if |s| > 0 && IsSpace(s[|s| - 1]) then RStrip(s[..|s| - 1]) else s
  }

  /** `rstrip` keeps a prefix that does not end in white space and removes
      only white space. */
  lemma {:induction false} RStripSpec(s: string)
    ensures StartsWith(s, RStrip(s))
    ensures |RStrip(s)| == 0 || !IsSpace(RStrip(s)[|RStrip(s)| - 1])
    ensures forall k :: |RStrip(s)| <= k < |s| ==> IsSpace(s[k])
  {
    if |s| > 0 && IsSpace(s[|s| - 1]) {
      var t := s[..|s| - 1];
      RStripSpec(t);
      assert forall k :: 0 <= k < |t| ==> t[k] == s[k];
      assert RStrip(s) == RStrip(t);
      assert s[..|RStrip(t)|] == t[..|RStrip(t)|];
    } else {
      assert s[..|s|] == s;
    }
  }

  /** `s.rstrip(c)` for a single character. */
  function RStripChar(s: string, c: char): (r: string)
    ensures StartsWith(s, r)
    ensures |r| == 0 || r[|r| - 1] != c
    ensures forall k :: |r| <= k < |s| ==> s[k] == c
  {
    if |s| > 0 && s[|s| - 1] == c then RStripChar(s[..|s| - 1], c) else s
  }

  // ---------------------------------------------------------------------
  // Integer formatting (`'%d' % n`, `'%s' % n`)

  function DigitChar(d: nat): char
    requires d < 10
  {
    ('0' as int + d) as char
  }

  function NatToString(n: nat): (r: string)
    ensures |r| > 0
  {
    if n < 10 then [DigitChar(n)] else NatToString(n / 10) + [DigitChar(n % 10)]
  }

  function IntToString(n: int): string {
    if n < 0 then "-" + NatToString(-n) else NatToString(n)
  }

  /** Reads a string of decimal digits back as a number: the partner of `NatToString`. */
  function ParseNat(s: string): int {
    if |s| == 0 then 0 else ParseNat(s[..|s| - 1]) * 10 + (s[|s| - 1] as int - '0' as int)
  }

  /** '%d' writes decimal digits only. */
  lemma {:induction false} NatToStringDigits(n: nat)
    ensures forall k :: 0 <= k < |NatToString(n)| ==> '0' <= NatToString(n)[k] <= '9'
  {
    if n >= 10 {
      NatToStringDigits(n / 10);
    }
  }

  lemma {:induction false} ParseNatToString(n: nat)
    ensures ParseNat(NatToString(n)) == n
  {
    if n >= 10 {
      var s := NatToString(n);
      assert s[..|s| - 1] == NatToString(n / 10);
      ParseNatToString(n / 10);
    }
  }

  /** '%d' formatting is injective: two counts print alike only when equal. */
  lemma NatToStringInjective(m: nat, n: nat)
    requires NatToString(m) == NatToString(n)
    ensures m == n
  {
    ParseNatToString(m);
    ParseNatToString(n);
  }

  // ---------------------------------------------------------------------
  // os.path (POSIX)

  /** Index of the last '/', if any (`s.rfind('/')`). */
  function LastSlash(s: string): (r: Option<nat>)
    ensures r.Some? ==> r.value < |s|
  {
    if |s| == 0 then None
    else if s[|s| - 1] == '/' then Some(|s| - 1)
    else LastSlash(s[..|s| - 1])
  }

  /** LastSlash finds a '/' with none after it, and finds none only in a
      string without '/'. */
  lemma {:induction false} LastSlashSpec(s: string)
    ensures LastSlash(s).None? <==> forall k :: 0 <= k < |s| ==> s[k] != '/'
    ensures LastSlash(s).Some? ==> s[LastSlash(s).value] == '/' &&
                                   forall k :: LastSlash(s).value < k < |s| ==> s[k] != '/'
  {
    if |s| > 0 && s[|s| - 1] != '/' {
      var t := s[..|s| - 1];
      LastSlashSpec(t);
      assert forall k :: 0 <= k < |t| ==> t[k] == s[k];
    }
  }

  /** `os.path.basename`: everything after the last '/'. */
  function Basename(p: string): string {
    match LastSlash(p)
    case None => p
    case Some(i) => p[i + 1..]
  }

  /** The base name ends the path and holds no '/'. */
  lemma BasenameSpec(p: string)
    ensures EndsWith(p, Basename(p))
    ensures forall k :: 0 <= k < |Basename(p)| ==> Basename(p)[k] != '/'
  {
    LastSlashSpec(p);
    var b := Basename(p);
    if LastSlash(p).Some? {
      var i := LastSlash(p).value;
      assert forall k :: 0 <= k < |b| ==> b[k] == p[i + 1 + k];
    } else {
      assert p[|p| - |b|..] == p;
    }
  }

  predicate AllSlashes(s: string) {
    forall k :: 0 <= k < |s| ==> s[k] == '/'
  }

  /** `os.path.dirname`: everything up to the last '/', with trailing
      slashes removed unless the head is made of slashes only. */
  function Dirname(p: string): (r: string)
    ensures StartsWith(p, r)
  {
    var head := match LastSlash(p) case None => "" case Some(i) => p[..i + 1];
    if |head| > 0 && !AllSlashes(head) then RStripChar(head, '/') else head
  }

  /** `dirname(d + '/' + f) == d` and `basename(d + '/' + f) == f` for a
      file name `f` without '/' and a directory `d` that does not end in '/'
      and is not empty. */
  lemma {:induction false} SplitPath(d: string, f: string)
    requires |d| > 0 && d[|d| - 1] != '/'
    requires forall k :: 0 <= k < |f| ==> f[k] != '/'
    ensures Dirname(d + "/" + f) == d
    ensures Basename(d + "/" + f) == f
  {
    var p := d + "/" + f;
    LastSlashOfJoin(d, f);
    assert p[..|d| + 1] == d + "/";
    assert p[|d| + 1..] == f;
    assert !AllSlashes(d + "/") by { assert (d + "/")[|d| - 1] == d[|d| - 1]; }
    assert (d + "/")[..|d|] == d;
  }

  lemma {:induction false} LastSlashOfJoin(d: string, f: string)
    requires forall k :: 0 <= k < |f| ==> f[k] != '/'
    ensures LastSlash(d + "/" + f) == Some(|d|)
  {
    var p := d + "/" + f;
    LastSlashSpec(p);
    assert p[|d|] == '/';
    assert forall k :: |d| < k < |p| ==> p[k] == f[k - |d| - 1];
    var v := LastSlash(p).value;
    assert v <= |d|;
  }

  // ---------------------------------------------------------------------
  // list.sort() on strings: Python 2 compares byte strings lexicographically

  predicate LexLe(a: string, b: string) {
    |a| == 0 || (|b| > 0 && (a[0] < b[0] || (a[0] == b[0] && LexLe(a[1..], b[1..]))))
  }

  lemma {:induction false} LexLeReflexive(a: string)
    ensures LexLe(a, a)
  {
    if |a| > 0 {
      LexLeReflexive(a[1..]);
    }
  }

  lemma {:induction false} LexLeTotal(a: string, b: string)
    ensures LexLe(a, b) || LexLe(b, a)
  {
    if |a| > 0 && |b| > 0 && a[0] == b[0] {
      LexLeTotal(a[1..], b[1..]);
    }
  }

  lemma {:induction false} LexLeAntisymmetric(a: string, b: string)
    requires LexLe(a, b) && LexLe(b, a)
    ensures a == b
  {
    if |a| > 0 && |b| > 0 {
      LexLeAntisymmetric(a[1..], b[1..]);
      assert a == [a[0]] + a[1..];
      assert b == [b[0]] + b[1..];
    }
  }

  lemma {:induction false} LexLeTransitive(a: string, b: string, c: string)
    requires LexLe(a, b) && LexLe(b, c)
    ensures LexLe(a, c)
  {
    if |a| > 0 && |b| > 0 && |c| > 0 && a[0] == b[0] && b[0] == c[0] {
      LexLeTransitive(a[1..], b[1..], c[1..]);
    }
  }

  predicate Sorted(s: seq<string>) {
    forall i, j :: 0 <= i < j < |s| ==> LexLe(s[i], s[j])
  }

  /** Inserts `x` into a sorted list after every element not greater than it. */
  function Insert(x: string, s: seq<string>): (r: seq<string>)
    requires Sorted(s)
    ensures Sorted(r)
    ensures multiset(r) == multiset(s) + multiset{x}
  {
    if |s| == 0 then [x]
    else if LexLe(x, s[0]) && x != s[0] then
      InsertFrontSorted(x, s);
      [x] + s
    else
      assert s == [s[0]] + s[1..];
      var t := Insert(x, s[1..]);
      InsertBehindSorted(x, s, t);
      [s[0]] + t
  }

  lemma InsertFrontSorted(x: string, s: seq<string>)
    requires Sorted(s) && |s| > 0 && LexLe(x, s[0])
    ensures Sorted([x] + s)
  {
    forall i, j | 0 <= i < j < |s| + 1 ensures LexLe(([x] + s)[i], ([x] + s)[j]) {
      if i == 0 && j > 1 {
        LexLeTransitive(x, s[0], s[j - 1]);
      }
    }
  }

  lemma InsertBehindSorted(x: string, s: seq<string>, t: seq<string>)
    requires Sorted(s) && |s| > 0 && !(LexLe(x, s[0]) && x != s[0])
    requires Sorted(t) && multiset(t) == multiset(s[1..]) + multiset{x}
    ensures Sorted([s[0]] + t)
  {
    LexLeTotal(x, s[0]);
    assert LexLe(s[0], x);
    forall k | 0 <= k < |t| ensures LexLe(s[0], t[k]) {
      assert t[k] in multiset(t);
      if t[k] != x {
        assert t[k] in multiset(s[1..]);
        var m :| 0 <= m < |s[1..]| && s[1..][m] == t[k];
        assert s[m + 1] == t[k];
      }
    }
  }

  /** Python's `list.sort()` on a list of strings, as insertion sort. */
  function Sort(s: seq<string>): (r: seq<string>)
    ensures Sorted(r)
    ensures multiset(r) == multiset(s)
  {
    if |s| == 0 then []
    else
      assert s == [s[0]] + s[1..];
      Insert(s[0], Sort(s[1..]))
  }

  /** A sorted permutation is unique, so `Sort` is the only possible outcome
      of sorting: it does not depend on the order of its input. */
  lemma {:induction false} SortedPermutationUnique(a: seq<string>, b: seq<string>)
    requires Sorted(a) && Sorted(b) && multiset(a) == multiset(b)
    ensures a == b
  {
    if |a| > 0 {
      SortedHeadsEqual(a, b);
      MultisetTail(a, b);
      assert Sorted(a[1..]) && Sorted(b[1..]);
      SortedPermutationUnique(a[1..], b[1..]);
      assert a == [a[0]] + a[1..] && b == [b[0]] + b[1..];
    } else {
      assert |b| == 0 by { assert |multiset(a)| == |multiset(b)|; }
    }
  }

  /** Two sorted permutations of each other start with the same element. */
  lemma SortedHeadsEqual(a: seq<string>, b: seq<string>)
    requires Sorted(a) && Sorted(b) && multiset(a) == multiset(b) && |a| > 0
    ensures |b| > 0 && a[0] == b[0]
  {
    assert |b| == |a| by { assert |multiset(a)| == |multiset(b)|; }
    assert a[0] in multiset(b) && b[0] in multiset(a);
    var i :| 0 <= i < |b| && b[i] == a[0];
    var j :| 0 <= j < |a| && a[j] == b[0];
    assert LexLe(b[0], a[0]) by { if i > 0 { assert LexLe(b[0], b[i]); } else { LexLeReflexive(a[0]); } }
    assert LexLe(a[0], b[0]) by { if j > 0 { assert LexLe(a[0], a[j]); } else { LexLeReflexive(a[0]); } }
    LexLeAntisymmetric(a[0], b[0]);
  }

  lemma MultisetTail(a: seq<string>, b: seq<string>)
    requires |a| > 0 && |b| > 0 && a[0] == b[0] && multiset(a) == multiset(b)
    ensures multiset(a[1..]) == multiset(b[1..])
  {
    assert a == [a[0]] + a[1..] && b == [b[0]] + b[1..];
    assert multiset(a) == multiset{a[0]} + multiset(a[1..]);
    assert multiset(b) == multiset{b[0]} + multiset(b[1..]);
    forall x ensures multiset(a[1..])[x] == multiset(b[1..])[x] {
      assert multiset(a)[x] == multiset{a[0]}[x] + multiset(a[1..])[x];
      assert multiset(b)[x] == multiset{b[0]}[x] + multiset(b[1..])[x];
    }
  }

  // ---------------------------------------------------------------------
  // subprocess.list2cmdline (MS C runtime quoting rules)

  function Backslashes(n: nat): (r: string)
    ensures |r| == n && forall k :: 0 <= k < n ==> r[k] == '\\'
  {
    if n == 0 then "" else Backslashes(n - 1) + "\\"
  }

  /** The body of one argument, with `pending` backslashes not yet written. */
  function Escape(s: string, pending: nat): string {
    if |s| == 0 then Backslashes(pending)
    else if s[0] == '\\' then Escape(s[1..], pending + 1)
    else if s[0] == '"' then Backslashes(2 * pending) + "\\\"" + Escape(s[1..], 0)
    else Backslashes(pending) + [s[0]] + Escape(s[1..], 0)
  }

  /** Number of backslashes that end `s`. */
  function TrailingBackslashes(s: string): nat {
    if |s| > 0 && s[|s| - 1] == '\\' then TrailingBackslashes(s[..|s| - 1]) + 1 else 0
  }

  predicate NeedsQuote(arg: string) {
    ' ' in arg || '\t' in arg || |arg| == 0
  }

  function QuoteArg(arg: string): string {
    if NeedsQuote(arg) then "\"" + Escape(arg, 0) + Backslashes(TrailingBackslashes(arg)) + "\""
    else Escape(arg, 0)
  }

  function QuoteAll(args: seq<string>): (r: seq<string>)
    ensures |r| == |args|
  {
    if |args| == 0 then [] else [QuoteArg(args[0])] + QuoteAll(args[1..])
  }

  function List2Cmdline(args: seq<string>): string {
    Join(" ", QuoteAll(args))
  }

  /** A character that list2cmdline never rewrites. */
  predicate PlainChar(c: char) {
    c != ' ' && c != '\t' && c != '"' && c != '\\'
  }

  lemma {:induction false} EscapePlain(s: string)
    requires forall k :: 0 <= k < |s| ==> PlainChar(s[k])
    ensures Escape(s, 0) == s
  {
    if |s| > 0 {
      EscapePlain(s[1..]);
      assert s == [s[0]] + s[1..];
    }
  }

  lemma {:induction false} QuoteAllPlain(args: seq<string>)
    requires forall i :: 0 <= i < |args| ==> |args[i]| > 0 && forall k :: 0 <= k < |args[i]| ==> PlainChar(args[i][k])
    ensures QuoteAll(args) == args
  {
    if |args| > 0 {
      EscapePlain(args[0]);
      assert !NeedsQuote(args[0]) by {
        assert ' ' !in args[0] by { forall k | 0 <= k < |args[0]| ensures args[0][k] != ' ' { assert PlainChar(args[0][k]); } }
        assert '\t' !in args[0] by { forall k | 0 <= k < |args[0]| ensures args[0][k] != '\t' { assert PlainChar(args[0][k]); } }
      }
      QuoteAllPlain(args[1..]);
    }
  }

  /** Non-empty arguments without spaces, tabs, quotes or backslashes are
      joined with single spaces and otherwise left alone. */
  lemma List2CmdlinePlain(args: seq<string>)
    requires forall i :: 0 <= i < |args| ==> |args[i]| > 0 && forall k :: 0 <= k < |args[i]| ==> PlainChar(args[i][k])
    ensures List2Cmdline(args) == Join(" ", args)
  {
    QuoteAllPlain(args);
  }

  /** An empty argument is written as a pair of double quotes, so it is not lost. */
  lemma QuoteEmpty()
    ensures QuoteArg("") == "\"\""
  {
  }
}
