/** String rules the Python code relies on: quote stripping (re.sub), ASCII lower-casing,
    str.endswith with a tuple, substring test, str(n).zfill(w), and code-point ordering
    of strings together with a stable sort by a string key (Python's sorted). */
module Text {

  predicate IsQuote(c: char) { c == '\'' || c == '"' }

  predicate NoQuotes(s: string) { forall i :: 0 <= i < |s| ==> !IsQuote(s[i]) }

  /** re.sub(r"[\"']", "", s): every single and double quote deleted, all else kept in order. */
  function StripQuotes(s: string): string
    decreases |s|
  {
    if s == [] then []
    else if IsQuote(s[0]) then StripQuotes(s[1..]) else [s[0]] + StripQuotes(s[1..])
  }

  /** The stripped string has no quote, is no longer, and keeps exactly the other characters. */
  lemma {:induction false} StripQuotesFacts(s: string)
    ensures NoQuotes(StripQuotes(s))
    ensures |StripQuotes(s)| <= |s|
    ensures forall c :: c in StripQuotes(s) <==> c in s && !IsQuote(c)
    decreases |s|
  {
    if s != [] {
      StripQuotesFacts(s[1..]);
      assert s == [s[0]] + s[1..];
    }
  }

  lemma {:induction false} StripQuotesOfClean(s: string)
    requires NoQuotes(s)
    ensures StripQuotes(s) == s
    decreases |s|
  {
    if s != [] {
      StripQuotesOfClean(s[1..]);
    }
  }

  /** Stripping twice is stripping once. */
  lemma StripQuotesIdempotent(s: string)
    ensures StripQuotes(StripQuotes(s)) == StripQuotes(s)
  {
    StripQuotesFacts(s);
    StripQuotesOfClean(StripQuotes(s));
  }

  lemma {:induction false} StripQuotesAppend(a: string, b: string)
    ensures StripQuotes(a + b) == StripQuotes(a) + StripQuotes(b)
    decreases |a|
  {
    if a == [] {
      assert a + b == b;
    } else {
      assert (a + b)[0] == a[0];
      assert (a + b)[1..] == a[1..] + b;
      StripQuotesAppend(a[1..], b);
    }
  }

  function LowerChar(c: char): char
  {
    if 'A' <= c <= 'Z' then (c as int + 32) as char else c
  }

  /** str.lower() on the ASCII letters; every other character is kept. */
  function Lower(s: string): (r: string)
    ensures |r| == |s|
    ensures forall i :: 0 <= i < |s| ==> r[i] == LowerChar(s[i])
  {
    seq(|s|, i requires 0 <= i < |s| => LowerChar(s[i]))
  }

  predicate EndsWith(s: string, suffix: string)
  {
    |suffix| <= |s| && s[|s| - |suffix|..] == suffix
  }

  /** s.endswith(t) for a tuple t: true when some member of t ends s. */
  predicate EndsWithAny(s: string, suffixes: seq<string>)
  {
    exists k :: 0 <= k < |suffixes| && EndsWith(s, suffixes[k])
  }

  predicate OccursAt(s: string, sub: string, i: int)
  {
    0 <= i <= |s| - |sub| && s[i..i + |sub|] == sub
  }

  /** sub in s for strings. */
  predicate Contains(s: string, sub: string)
  {
    exists i :: 0 <= i <= |s| - |sub| && OccursAt(s, sub, i)
  }

  function DigitChar(d: nat): (c: char)
    requires d < 10
    ensures '0' <= c <= '9' && !IsQuote(c)
  {
    ('0' as int + d) as char
  }

  /** str(n) for a natural number: its decimal digits, most significant first. */
  function NatToString(n: nat): (r: string)
    ensures 1 <= |r|
    ensures forall i :: 0 <= i < |r| ==> '0' <= r[i] <= '9'
    decreases n
  {
    if n < 10 then [DigitChar(n)] else NatToString(n / 10) + [DigitChar(n % 10)]
  }

  /** s.zfill(width) for a string without a sign: '0's prepended up to width characters. */
  function ZFill(s: string, width: nat): (r: string)
    ensures |r| == if |s| >= width then |s| else width
    ensures EndsWith(r, s)
    ensures forall i :: 0 <= i < |r| - |s| ==> r[i] == '0'
  {
    if |s| >= width then s else seq(width - |s|, _ => '0') + s
  }

  /** Python's `a <= b` on str: code-point lexicographic order. */
  predicate LexLe(a: string, b: string)
    decreases |a|
  {
    a == [] || (b != [] && (a[0] < b[0] || (a[0] == b[0] && LexLe(a[1..], b[1..]))))
  }

  predicate LexLt(a: string, b: string)
  {
    LexLe(a, b) && a != b
  }

  lemma {:induction false} LexLeTotal(a: string, b: string)
    ensures LexLe(a, b) || LexLe(b, a)
    decreases |a|
  {
    if a != [] && b != [] && a[0] == b[0] {
      LexLeTotal(a[1..], b[1..]);
    }
  }

  lemma {:induction false} LexLeTrans(a: string, b: string, c: string)
    requires LexLe(a, b) && LexLe(b, c)
    ensures LexLe(a, c)
    decreases |a|
  {
    if a != [] && a[0] == b[0] && b[0] == c[0] {
      LexLeTrans(a[1..], b[1..], c[1..]);
    }
  }

  lemma {:induction false} LexLeRefl(a: string)
    ensures LexLe(a, a)
    decreases |a|
  {
    if a != [] {
      LexLeRefl(a[1..]);
    }
  }

  /** Strings that agree on a prefix compare as their remainders do. */
  lemma {:induction false} LexLeCommonPrefix(p: string, a: string, b: string)
    ensures LexLe(p + a, p + b) <==> LexLe(a, b)
    decreases |p|
  {
    if p != [] {
      assert (p + a)[0] == p[0] && (p + b)[0] == p[0];
      assert (p + a)[1..] == p[1..] + a;
      assert (p + b)[1..] == p[1..] + b;
      LexLeCommonPrefix(p[1..], a, b);
    } else {
      assert p + a == a && p + b == b;
    }
  }

  /** Two equally long heads decide the order, whatever follows them. */
  lemma {:induction false} LexLtSameLengthHead(x: string, y: string, s: string, t: string)
    requires |x| == |y| && LexLt(x, y)
    ensures LexLt(x + s, y + t)
    decreases |x|
  {
    assert x != [];
    assert (x + s)[0] == x[0] && (y + t)[0] == y[0];
    if x[0] < y[0] {
    } else {
      assert x == [x[0]] + x[1..] && y == [y[0]] + y[1..];
      assert (x + s)[1..] == x[1..] + s;
      assert (y + t)[1..] == y[1..] + t;
      LexLtSameLengthHead(x[1..], y[1..], s, t);
    }
    assert (x + s)[..|x|] == x && (y + t)[..|y|] == y;
  }

  predicate SortedBy<T>(s: seq<T>, key: T -> string)
  {
    forall i, j :: 0 <= i < j < |s| ==> LexLe(key(s[i]), key(s[j]))
  }

  /** x placed before the first element whose key is not smaller than its own. */
  function InsertBy<T>(x: T, s: seq<T>, key: T -> string): (r: seq<T>)
    ensures |r| == |s| + 1
    ensures multiset(r) == multiset(s) + multiset{x}
    decreases |s|
  {
    if s == [] || LexLe(key(x), key(s[0])) then [x] + s
    else
      assert s == [s[0]] + s[1..];
      [s[0]] + InsertBy(x, s[1..], key)
  }

  lemma {:induction false} InsertBySorted<T>(x: T, s: seq<T>, key: T -> string)
    requires SortedBy(s, key)
    ensures SortedBy(InsertBy(x, s, key), key)
    decreases |s|
  {
    var r := InsertBy(x, s, key);
    if s == [] {
    } else if LexLe(key(x), key(s[0])) {
      forall j | 1 <= j < |r| ensures LexLe(key(r[0]), key(r[j])) {
        if j > 1 { LexLeTrans(key(x), key(s[0]), key(s[j - 1])); }
      }
    } else {
      LexLeTotal(key(x), key(s[0]));
      InsertBySorted(x, s[1..], key);
      var tail := InsertBy(x, s[1..], key);
      forall j | 1 <= j < |r| ensures LexLe(key(r[0]), key(r[j])) {
        assert r[j] == tail[j - 1];
        assert r[j] in multiset(tail);
        assert r[j] in multiset(s[1..]) || r[j] == x;
        if r[j] != x {
          var k :| 0 <= k < |s[1..]| && s[1..][k] == r[j];
          assert s[k + 1] == r[j];
        }
      }
    }
  }

  /** sorted(s, key=key): stable, ordered by key, a permutation of s. */
  function SortBy<T>(s: seq<T>, key: T -> string): (r: seq<T>)
    ensures |r| == |s|
    ensures multiset(r) == multiset(s)
    ensures SortedBy(r, key)
    decreases |s|
  {
    if s == [] then []
    else
      assert s == [s[0]] + s[1..];
      var rest := SortBy(s[1..], key);
      InsertBySorted(s[0], rest, key);
      InsertBy(s[0], rest, key)
  }

  /** Sorting what is already in key order changes nothing. */
  lemma {:induction false} SortByOfSorted<T>(s: seq<T>, key: T -> string)
    requires SortedBy(s, key)
    ensures SortBy(s, key) == s
    decreases |s|
  {
    if s != [] {
      var rest := s[1..];
      assert SortedBy(rest, key) by {
        forall i, j | 0 <= i < j < |rest| ensures LexLe(key(rest[i]), key(rest[j])) {
          assert rest[i] == s[i + 1] && rest[j] == s[j + 1];
        }
      }
      SortByOfSorted(rest, key);
      assert SortBy(s, key) == InsertBy(s[0], rest, key);
      if rest != [] {
        assert rest[0] == s[1];
        assert LexLe(key(s[0]), key(rest[0]));
      }
      assert InsertBy(s[0], rest, key) == [s[0]] + rest;
      assert [s[0]] + rest == s;
    }
  }
}
