/** String operations that the viewer relies on, with Python's semantics:
    code-point ordering and `sorted`, `str.split`/`str.join` on one character,
    `os.path` basename, join and extension splitting, `"{:0Nd}".format` and `int()`
    on decimal digits, and the first match of `\d+`. */
module Text {
  import opened Wrappers
  import PyList

  // ---------------------------------------------------------------------------
  // Ordering and sorting

  /** Python's `a <= b` on strings: lexicographic by code point. */
  predicate LexLe(a: string, b: string)
    decreases |a|
  {
    |a| == 0 || (|b| > 0 && (a[0] < b[0] || (a[0] == b[0] && LexLe(a[1..], b[1..]))))
  }

  lemma {:induction false} LexLeTotal(a: string, b: string)
    ensures LexLe(a, b) || LexLe(b, a)
    decreases |a|
  {
    if |a| > 0 && |b| > 0 && a[0] == b[0] {
      LexLeTotal(a[1..], b[1..]);
    }
  }

  lemma {:induction false} LexLeTrans(a: string, b: string, c: string)
    requires LexLe(a, b) && LexLe(b, c)
    ensures LexLe(a, c)
    decreases |a|
  {
    if |a| > 0 && a[0] == b[0] && b[0] == c[0] {
      LexLeTrans(a[1..], b[1..], c[1..]);
    }
  }

  lemma {:induction false} LexLeAntisym(a: string, b: string)
    requires LexLe(a, b) && LexLe(b, a)
    ensures a == b
    decreases |a|
  {
    if |a| > 0 {
      LexLeAntisym(a[1..], b[1..]);
      assert a == [a[0]] + a[1..] && b == [b[0]] + b[1..];
    }
  }

  predicate Sorted(s: seq<string>) {
    forall i, j :: 0 <= i < j < |s| ==> LexLe(s[i], s[j])
  }

  /** Places `x` before the first element it does not exceed. */
  function Insert(x: string, s: seq<string>): seq<string> {
    if |s| == 0 || LexLe(x, s[0]) then [x] + s else [s[0]] + Insert(x, s[1..])
  }

  /** Python's `sorted` on a list of strings. */
  function Sort(s: seq<string>): seq<string> {
    if |s| == 0 then [] else Insert(s[0], Sort(s[1..]))
  }

  lemma {:induction false} InsertPerm(x: string, s: seq<string>)
    ensures multiset(Insert(x, s)) == multiset(s) + multiset{x}
  {
    if |s| > 0 && !LexLe(x, s[0]) {
      InsertPerm(x, s[1..]);
      assert s == [s[0]] + s[1..];
    }
  }

  lemma {:induction false} InsertSorted(x: string, s: seq<string>)
    requires Sorted(s)
    ensures Sorted(Insert(x, s))
  {
    if |s| == 0 {
    } else if LexLe(x, s[0]) {
      var r := [x] + s;
      forall i, j | 0 <= i < j < |r| ensures LexLe(r[i], r[j]) {
        if i == 0 && j > 1 {
          LexLeTrans(x, s[0], s[j - 1]);
        }
      }
    } else {
      LexLeTotal(x, s[0]);
      var t := Insert(x, s[1..]);
      InsertSorted(x, s[1..]);
      InsertPerm(x, s[1..]);
      var r := [s[0]] + t;
      forall j | 0 <= j < |t| ensures LexLe(s[0], t[j]) {
        assert t[j] in multiset(t);
        if t[j] != x {
          assert t[j] in multiset(s[1..]);
          var k :| 0 <= k < |s[1..]| && s[1..][k] == t[j];
          assert s[k + 1] == t[j];
        }
      }
      forall i, j | 0 <= i < j < |r| ensures LexLe(r[i], r[j]) {
        if i == 0 {
          assert r[j] == t[j - 1];
        } else {
          assert r[i] == t[i - 1] && r[j] == t[j - 1];
        }
      }
    }
  }

  /** `sorted(s)` is ordered and holds exactly the elements of `s`. */
  lemma {:induction false} SortSpec(s: seq<string>)
    ensures Sorted(Sort(s))
    ensures multiset(Sort(s)) == multiset(s)
  {
    if |s| > 0 {
      SortSpec(s[1..]);
      InsertSorted(s[0], Sort(s[1..]));
      InsertPerm(s[0], Sort(s[1..]));
      assert s == [s[0]] + s[1..];
    }
  }

  /** Two ordered lists with the same elements are equal. */
  lemma {:induction false} SortedUnique(a: seq<string>, b: seq<string>)
    requires Sorted(a) && Sorted(b) && multiset(a) == multiset(b)
    ensures a == b
  {
    assert |a| == |multiset(a)| && |b| == |multiset(b)|;
    if |a| > 0 {
      SortedSameHead(a, b);
      assert a == [a[0]] + a[1..] && b == [b[0]] + b[1..];
      PyList.MultisetCancel(a[0], multiset(a[1..]), multiset(b[1..]));
      SortedUnique(a[1..], b[1..]);
    }
  }

  lemma SortedSameHead(a: seq<string>, b: seq<string>)
    requires Sorted(a) && Sorted(b) && multiset(a) == multiset(b) && |a| > 0 && |b| > 0
    ensures a[0] == b[0]
  {
    assert a[0] in multiset(b) && b[0] in multiset(a);
    var k :| 0 <= k < |b| && b[k] == a[0];
    var m :| 0 <= m < |a| && a[m] == b[0];
    if k > 0 && m > 0 {
      assert LexLe(b[0], b[k]) && LexLe(a[0], a[m]);
      LexLeAntisym(a[0], b[0]);
    }
  }

  /** The result of `sorted` depends only on the elements, not on their order. */
  lemma SortOrderIndependent(a: seq<string>, b: seq<string>)
    requires multiset(a) == multiset(b)
    ensures Sort(a) == Sort(b)
  {
    SortSpec(a);
    SortSpec(b);
    SortedUnique(Sort(a), Sort(b));
  }

  /** Sorting an ordered list leaves it unchanged. */
  lemma SortSorted(s: seq<string>)
    requires Sorted(s)
    ensures Sort(s) == s
  {
    SortSpec(s);
    SortedUnique(Sort(s), s);
  }

  // ---------------------------------------------------------------------------
  // Splitting and joining on one character

  /** `s.split(c)`: the pieces between occurrences of `c`, always at least one. */
  function Split(s: string, c: char): (r: seq<string>)
    ensures |r| >= 1
  {
    if |s| == 0 then [""]
    else
      var rest := Split(s[1..], c);
      if s[0] == c then [""] + rest else [[s[0]] + rest[0]] + rest[1..]
  }

  /** `c.join(parts)` for a one-character separator. */
  function Join(parts: seq<string>, c: char): string {
    if |parts| == 0 then ""
    else if |parts| == 1 then parts[0]
    else parts[0] + [c] + Join(parts[1..], c)
  }

  /** Joining the pieces of a split with the same separator rebuilds the string. */
  lemma {:induction false} JoinSplit(s: string, c: char)
    ensures Join(Split(s, c), c) == s
  {
    if |s| > 0 {
      var rest := Split(s[1..], c);
      JoinSplit(s[1..], c);
      assert s == [s[0]] + s[1..];
      if s[0] != c && |rest| > 1 {
        var parts := Split(s, c);
        assert parts[1..] == rest[1..];
      }
    }
  }

  /** No piece of a split contains the separator. */
  lemma {:induction false} SplitPieces(s: string, c: char)
    ensures forall k :: 0 <= k < |Split(s, c)| ==> c !in Split(s, c)[k]
  {
    if |s| > 0 {
      SplitPieces(s[1..], c);
      var rest := Split(s[1..], c);
      var parts := Split(s, c);
      forall k | 0 <= k < |parts| ensures c !in parts[k] {
        if s[0] == c {
          if k > 0 {
            assert parts[k] == rest[k - 1];
          }
        } else if k == 0 {
          assert parts[0] == [s[0]] + rest[0];
        } else {
          assert parts[k] == rest[k];
        }
      }
    }
  }

  /** Splitting on a character that does not occur gives the string itself. */
  lemma {:induction false} SplitAbsent(s: string, c: char)
    requires c !in s
    ensures Split(s, c) == [s]
  {
    if |s| > 0 {
      SplitAbsent(s[1..], c);
      assert s == [s[0]] + s[1..];
    }
  }

  /** Splitting `a + [c] + b` where `a` holds no `c`: `a` is the first piece. */
  lemma {:induction false} SplitAt(a: string, c: char, b: string)
    requires c !in a
    ensures Split(a + [c] + b, c) == [a] + Split(b, c)
  {
    if |a| == 0 {
      assert a + [c] + b == [c] + b;
      assert ([c] + b)[1..] == b;
    } else {
      SplitAt(a[1..], c, b);
      assert (a + [c] + b)[1..] == a[1..] + [c] + b;
      assert a == [a[0]] + a[1..];
    }
  }

  // ---------------------------------------------------------------------------
  // Paths

  /** `os.path.basename(p)`: everything after the last `/`. */
  function Basename(p: string): (r: string)
    ensures '/' !in r
    ensures |r| <= |p| && r == p[|p| - |r|..]
  {
    if |p| == 0 || p[|p| - 1] == '/' then ""
    else Basename(p[..|p| - 1]) + [p[|p| - 1]]
  }

  /** `os.path.join(a, b)` on POSIX: an absolute `b` replaces `a`, and no `/`
      is doubled when `a` already ends in one. */
  function PathJoin(a: string, b: string): (r: string)
    ensures |b| > 0 && b[0] == '/' ==> r == b
    ensures |r| >= |b| && r[|r| - |b|..] == b
  {
    if |b| > 0 && b[0] == '/' then b
    else if |a| == 0 || a[|a| - 1] == '/' then a + b
    else a + "/" + b
  }

  /** The name of a path built by joining a name without `/` is that name. */
  lemma {:induction false} BasenameJoin(a: string, b: string)
    requires '/' !in b
    ensures Basename(PathJoin(a, b)) == b
  {
    var p := PathJoin(a, b);
    if |b| == 0 {
      assert |p| == 0 || p[|p| - 1] == '/';
    } else {
      BasenameSuffix(p, |b|);
    }
  }

  /** When the last `k` characters hold no `/` and the one before is `/` (or absent),
      those `k` characters are the basename. */
  lemma {:induction false} BasenameSuffix(p: string, k: nat)
    requires k <= |p|
    requires '/' !in p[|p| - k..]
    requires k == |p| || p[|p| - k - 1] == '/'
    ensures Basename(p) == p[|p| - k..]
  {
    if k > 0 {
      assert p[|p| - 1] in p[|p| - k..];
      var q := p[..|p| - 1];
      assert q[|q| - (k - 1)..] == p[|p| - k..|p| - 1];
      BasenameSuffix(q, k - 1);
    }
  }

  /** The index of the last occurrence of `c`, if any. */
  function LastIndexOf(s: string, c: char): (r: Option<nat>)
    ensures r.None? <==> c !in s
    ensures r.Some? ==> r.value < |s| && s[r.value] == c && c !in s[r.value + 1..]
  {
    if |s| == 0 then None
    else if s[|s| - 1] == c then Some(|s| - 1)
    else
      var r := LastIndexOf(s[..|s| - 1], c);
      assert s == s[..|s| - 1] + [s[|s| - 1]];
      if r.Some? then
        assert s[r.value + 1..] == s[..|s| - 1][r.value + 1..] + [s[|s| - 1]];
        r
      else r
  }

  /** `os.path.splitext(name)[0]` for a name without `/`: the part before the last
      dot, unless every character before that dot is itself a dot. */
  function SplitExtRoot(name: string): (r: string)
    ensures r == name || (|r| < |name| && name[|r|] == '.' && '.' !in name[|r| + 1..])
  {
    match LastIndexOf(name, '.')
    case None => name
    case Some(k) => if exists j :: 0 <= j < k && name[j] != '.' then name[..k] else name
  }

  /** `os.path.splitext(os.path.basename(path))[0]`. */
  function Stem(path: string): string {
    SplitExtRoot(Basename(path))
  }

  /** The stem of `root + "." + ext` is `root` when `ext` has no dot and `root`
      does not start with a dot. */
  lemma StemOfName(root: string, ext: string)
    requires |root| > 0 && root[0] != '.' && '.' !in ext
    ensures SplitExtRoot(root + "." + ext) == root
  {
    var name := root + "." + ext;
    assert name[|root|] == '.';
    assert name[|root| + 1..] == ext;
    var k := LastIndexOf(name, '.');
    assert k.value == |root|;
    assert name[0] == root[0];
    assert name[..|root|] == root;
  }

  // ---------------------------------------------------------------------------
  // Decimal integers

  predicate IsDigit(ch: char) {
    '0' <= ch <= '9'
  }

  function DigitChar(d: nat): (ch: char)
    requires d < 10
    ensures IsDigit(ch)
  {
    ('0' as int + d) as char
  }

  function DigitValue(ch: char): (d: nat)
    requires IsDigit(ch)
    ensures d < 10 && DigitChar(d) == ch
  {
    ch as int - '0' as int
  }

  /** `str(n)` for `n >= 0`. */
  function Digits(n: nat): (r: string)
    ensures |r| >= 1
    ensures forall k :: 0 <= k < |r| ==> IsDigit(r[k])
  {
    if n < 10 then [DigitChar(n)] else Digits(n / 10) + [DigitChar(n % 10)]
  }

  function Zeros(k: nat): (r: string)
    ensures |r| == k && forall i :: 0 <= i < k ==> r[i] == '0'
  {
    if k == 0 then "" else Zeros(k - 1) + "0"
  }

  /** `"{:0<width>d}".format(n)` for `n >= 0`: left-padded with zeros to `width`. */
  function FormatInt(n: nat, width: nat): (r: string)
    ensures |r| >= width
    ensures forall k :: 0 <= k < |r| ==> IsDigit(r[k])
  {
    var d := Digits(n);
    (if |d| < width then Zeros(width - |d|) else "") + d
  }

  /** `int(s)` for a non-empty string of ASCII digits. */
  function ParseNat(s: string): nat
    requires forall k :: 0 <= k < |s| ==> IsDigit(s[k])
  {
    if |s| == 0 then 0 else ParseNat(s[..|s| - 1]) * 10 + DigitValue(s[|s| - 1])
  }

  lemma {:induction false} ParseDigits(n: nat)
    ensures ParseNat(Digits(n)) == n
  {
    if n >= 10 {
      var d := Digits(n);
      assert d[..|d| - 1] == Digits(n / 10);
      ParseDigits(n / 10);
    }
  }

  lemma {:induction false} ParseZerosPrefix(k: nat, s: string)
    requires forall i :: 0 <= i < |s| ==> IsDigit(s[i])
    ensures ParseNat(Zeros(k) + s) == ParseNat(s)
    decreases |s|, k
  {
    if |s| == 0 {
      assert Zeros(k) + s == Zeros(k);
      if k > 0 {
        assert Zeros(k)[..k - 1] == Zeros(k - 1);
        ParseZerosPrefix(k - 1, "");
        assert Zeros(k - 1) + "" == Zeros(k - 1);
      }
    } else {
      var t := Zeros(k) + s;
      assert t[..|t| - 1] == Zeros(k) + s[..|s| - 1];
      ParseZerosPrefix(k, s[..|s| - 1]);
    }
  }

  /** Reading back a zero-padded number gives the number. */
  lemma ParseFormat(n: nat, width: nat)
    ensures ParseNat(FormatInt(n, width)) == n
  {
    var d := Digits(n);
    ParseDigits(n);
    if |d| < width {
      ParseZerosPrefix(width - |d|, d);
    } else {
      assert FormatInt(n, width) == d;
    }
  }

  /** Zero-padded formatting never maps two numbers to the same text. */
  lemma FormatInjective(a: nat, b: nat, width: nat)
    requires FormatInt(a, width) == FormatInt(b, width)
    ensures a == b
  {
    ParseFormat(a, width);
    ParseFormat(b, width);
  }

  function Pow10(k: nat): (r: nat)
    ensures r >= 1
  {
    if k == 0 then 1 else 10 * Pow10(k - 1)
  }

  lemma {:induction false} DigitsLength(n: nat, w: nat)
    requires w >= 1 && n < Pow10(w)
    ensures |Digits(n)| <= w
  {
    if n >= 10 {
      assert w >= 2;
      DigitsLength(n / 10, w - 1);
    }
  }

  /** A number below 10^width formats to exactly `width` characters. */
  lemma FormatWidth(n: nat, width: nat)
    requires width >= 1 && n < Pow10(width)
    ensures |FormatInt(n, width)| == width
  {
    DigitsLength(n, width);
  }

  /** The longest prefix of `s` made of digits. */
  function DigitPrefix(s: string): (r: string)
    ensures |r| <= |s| && r == s[..|r|]
    ensures forall k :: 0 <= k < |r| ==> IsDigit(r[k])
    ensures |r| < |s| ==> !IsDigit(s[|r|])
  {
    if |s| == 0 || !IsDigit(s[0]) then "" else [s[0]] + DigitPrefix(s[1..])
  }

  /** `re.findall(r'\d+', s)[0]` over ASCII digits: the first maximal run of digits,
      or None where the list is empty and Python raises IndexError. */
  function FirstDigitRun(s: string): (r: Option<string>)
    ensures r.None? <==> forall k :: 0 <= k < |s| ==> !IsDigit(s[k])
    ensures r.Some? ==> |r.value| >= 1 && forall k :: 0 <= k < |r.value| ==> IsDigit(r.value[k])
  {
    if |s| == 0 then None
    else if IsDigit(s[0]) then Some(DigitPrefix(s))
    else
      var r := FirstDigitRun(s[1..]);
      assert forall k :: 1 <= k < |s| ==> s[k] == s[1..][k - 1];
      r
  }

  /** The first run of digits in `p + d + q` is `d` when `p` has no digit and `q`
      does not continue the run. */
  lemma {:induction false} FirstDigitRunOf(p: string, d: string, q: string)
    requires forall k :: 0 <= k < |p| ==> !IsDigit(p[k])
    requires |d| >= 1 && forall k :: 0 <= k < |d| ==> IsDigit(d[k])
    requires |q| == 0 || !IsDigit(q[0])
    ensures FirstDigitRun(p + d + q) == Some(d)
  {
    if |p| == 0 {
      assert p + d + q == d + q;
      DigitPrefixOf(d, q);
    } else {
      assert (p + d + q)[1..] == p[1..] + d + q;
      FirstDigitRunOf(p[1..], d, q);
    }
  }

  lemma {:induction false} DigitPrefixOf(d: string, q: string)
    requires forall k :: 0 <= k < |d| ==> IsDigit(d[k])
    requires |q| == 0 || !IsDigit(q[0])
    ensures DigitPrefix(d + q) == d
  {
    if |d| == 0 {
      assert d + q == q;
    } else {
      assert (d + q)[1..] == d[1..] + q;
      DigitPrefixOf(d[1..], q);
      assert d == [d[0]] + d[1..];
    }
  }
}
