/** The text operations of Go's strings package that the registry relies on:
    trimming, cutting, splitting, ASCII case folding, and the byte order used
    to break timestamp ties between event identifiers. */
module Text {

  const NUL: char := '\0'

  /** unicode.IsSpace. */
  predicate IsSpace(c: char) {
    var n := c as int;
    || 9 <= n <= 13 || n == 32 || n == 0x85 || n == 0xA0 || n == 0x1680
    || 0x2000 <= n <= 0x200A || n == 0x2028 || n == 0x2029 || n == 0x202F || n == 0x205F || n == 0x3000
  }

  /** The white space of Latin text, and none among the other ASCII characters. */
  lemma SpacesExactly(c: char)
    requires c as int <= 0xFF
    ensures IsSpace(c) <==> c in {'\t', '\n', '\U{0B}', '\U{0C}', '\r', ' ', '\U{85}', '\U{A0}'}
  {
  }

  /** Text without surrounding white space. */
  predicate Trimmed(s: string) {
    s != "" ==> !IsSpace(s[0]) && !IsSpace(s[|s| - 1])
  }

  function TrimLeft(s: string): (r: string)
    ensures |r| <= |s|
    ensures r != "" ==> !IsSpace(r[0])
    ensures s != "" && !IsSpace(s[0]) ==> r == s
    ensures r != "" ==> r[|r| - 1] == s[|s| - 1]
    ensures forall c :: c in r ==> c in s
  {
    if s != "" && IsSpace(s[0]) then TrimLeft(s[1..]) else s
  }

  function TrimRight(s: string): (r: string)
    ensures |r| <= |s|
    ensures r != "" ==> !IsSpace(r[|r| - 1])
    ensures s != "" && !IsSpace(s[|s| - 1]) ==> r == s
    ensures r != "" ==> r[0] == s[0]
    ensures forall c :: c in r ==> c in s
  {
    if s != "" && IsSpace(s[|s| - 1]) then TrimRight(s[..|s| - 1]) else s
  }

  /** strings.TrimSpace: the result is trimmed, and trimmed text is a fixed point. */
  function TrimSpace(s: string): (r: string)
    ensures Trimmed(r)
    ensures Trimmed(s) ==> r == s
    ensures forall c :: c in r ==> c in s
  {
    TrimRight(TrimLeft(s))
  }

  lemma {:induction false} TrimLeftCuts(s: string) returns (n: nat)
    ensures n <= |s| && TrimLeft(s) == s[n..] && forall k :: 0 <= k < n ==> IsSpace(s[k])
  {
    if s != "" && IsSpace(s[0]) {
      n := TrimLeftCuts(s[1..]);
      assert s[1..][n..] == s[n + 1..];
      forall k | 0 <= k < n + 1 ensures IsSpace(s[k]) {
        assert k > 0 ==> s[k] == s[1..][k - 1];
      }
      n := n + 1;
    } else {
      n := 0;
    }
  }

  lemma {:induction false} TrimRightCuts(s: string) returns (n: nat)
    ensures n <= |s| && TrimRight(s) == s[..n] && forall k :: n <= k < |s| ==> IsSpace(s[k])
  {
    if s != "" && IsSpace(s[|s| - 1]) {
      n := TrimRightCuts(s[..|s| - 1]);
    } else {
      n := |s|;
      assert s[..n] == s;
    }
  }

  /** Trimming cuts white space off both ends and nothing else. */
  lemma TrimsOnlySpace(s: string) returns (from: nat, to: nat)
    ensures from <= to <= |s| && TrimSpace(s) == s[from..to]
    ensures forall k :: 0 <= k < from || to <= k < |s| ==> IsSpace(s[k])
  {
    from := TrimLeftCuts(s);
    var n := TrimRightCuts(s[from..]);
    to := from + n;
    assert s[from..][..n] == s[from..to];
    forall k | to <= k < |s| ensures IsSpace(s[k]) {
      assert s[k] == s[from..][k - from];
    }
  }

  function LowerChar(c: char): (r: char)
    ensures IsSpace(r) <==> IsSpace(c)
    ensures !('A' <= r <= 'Z')
    ensures 'A' <= c <= 'Z' ==> r as int == c as int + 32
    ensures !('A' <= c <= 'Z') ==> r == c
  {
    if 'A' <= c <= 'Z' then c + 32 as char else c
  }

  /** strings.ToLower on ASCII letters. */
  function ToLower(s: string): (r: string)
    ensures |r| == |s|
    ensures forall i :: 0 <= i < |s| ==> r[i] == LowerChar(s[i])
  {
    seq(|s|, i requires 0 <= i < |s| => LowerChar(s[i]))
  }

  lemma LowerIsIdempotent(s: string)
    ensures ToLower(ToLower(s)) == ToLower(s)
  {
    forall i | 0 <= i < |s| ensures ToLower(ToLower(s))[i] == ToLower(s)[i] {
      assert LowerChar(LowerChar(s[i])) == LowerChar(s[i]);
    }
  }

  lemma LowerKeepsTrimmed(s: string)
    requires Trimmed(s)
    ensures Trimmed(ToLower(s))
    ensures TrimSpace(ToLower(s)) == ToLower(s)
  {
  }

  /** Both parts around the first separator, and whether there was one (strings.Cut). */
  function Cut(s: string, separator: char): (r: (string, string, bool))
    ensures separator !in r.0
    ensures r.2 ==> s == r.0 + [separator] + r.1
    ensures !r.2 ==> r.0 == s && r.1 == "" && separator !in s
    ensures r.2 <==> separator in s
  {
    if s == "" then ("", "", false)
    else if s[0] == separator then ("", s[1..], true)
    else
      var (before, after, found) := Cut(s[1..], separator);
      ([s[0]] + before, after, found)
  }

  lemma {:induction false} CutAtFirst(before: string, after: string, separator: char)
    requires separator !in before
    ensures Cut(before + [separator] + after, separator) == (before, after, true)
    decreases |before|
  {
    var s := before + [separator] + after;
    if before == "" {
      assert s[1..] == after;
    } else {
      assert s[1..] == before[1..] + [separator] + after;
      CutAtFirst(before[1..], after, separator);
      assert [before[0]] + before[1..] == before;
    }
  }

  /** strings.Split by a one-character separator: never empty. */
  function Split(s: string, separator: char): (parts: seq<string>)
    ensures |parts| >= 1
    ensures forall i :: 0 <= i < |parts| ==> separator !in parts[i]
    decreases |s|
  {
    var (before, after, found) := Cut(s, separator);
    if found then [before] + Split(after, separator) else [s]
  }

  function Joined(parts: seq<string>, separator: char): string
    requires parts != []
  {
    if |parts| == 1 then parts[0] else parts[0] + [separator] + Joined(parts[1..], separator)
  }

  /** Splitting loses nothing: the parts joined again are the text. */
  lemma {:induction false} JoinSplit(s: string, separator: char)
    ensures Joined(Split(s, separator), separator) == s
    decreases |s|
  {
    var (before, after, found) := Cut(s, separator);
    if found {
      JoinSplit(after, separator);
      assert Split(s, separator)[1..] == Split(after, separator);
    }
  }

  lemma {:induction false} JoinedHolds(parts: seq<string>, separator: char, i: nat)
    requires i < |parts|
    ensures forall c :: c in parts[i] ==> c in Joined(parts, separator)
  {
    if i > 0 {
      JoinedHolds(parts[1..], separator, i - 1);
    }
  }

  /** Strict byte order of strings (strings.Compare(a, b) < 0). */
  predicate Less(a: string, b: string) {
    b != "" && (a == "" || a[0] < b[0] || (a[0] == b[0] && Less(a[1..], b[1..])))
  }

  /** a is a proper beginning of b, or has the smaller byte where they first differ. */
  lemma {:induction false} LessExactly(a: string, b: string)
    ensures Less(a, b) <==> exists k: nat :: FirstDifference(a, b, k)
    decreases |a|
  {
    if a == "" || b == "" {
      assert a == "" && b != "" ==> FirstDifference(a, b, 0);
    } else {
      LessExactly(a[1..], b[1..]);
      if a[0] < b[0] {
        assert FirstDifference(a, b, 0);
      }
      if k: nat :| a[0] == b[0] && FirstDifference(a[1..], b[1..], k) {
        assert a[..k + 1] == [a[0]] + a[1..][..k] && b[..k + 1] == [b[0]] + b[1..][..k];
        assert FirstDifference(a, b, k + 1);
      }
      if k: nat :| FirstDifference(a, b, k) {
        if k > 0 {
          assert a[..k][0] == b[..k][0];
          assert a[1..][..k - 1] == a[..k][1..] && b[1..][..k - 1] == b[..k][1..];
          assert FirstDifference(a[1..], b[1..], k - 1);
        }
      }
    }
  }

  ghost predicate FirstDifference(a: string, b: string, k: nat) {
    k <= |a| && k < |b| && a[..k] == b[..k] && (k == |a| || a[k] < b[k])
  }

  lemma {:induction false} LessTotal(a: string, b: string)
    ensures Less(a, b) || a == b || Less(b, a)
    ensures !(Less(a, b) && Less(b, a))
    decreases |a| + |b|
  {
    if a != "" && b != "" {
      LessTotal(a[1..], b[1..]);
      assert a == [a[0]] + a[1..] && b == [b[0]] + b[1..];
    }
  }

  lemma {:induction false} LessTransitive(a: string, b: string, c: string)
    requires Less(a, b) && Less(b, c)
    ensures Less(a, c)
    decreases |a|
  {
    if a != "" && a[0] == b[0] && b[0] == c[0] {
      LessTransitive(a[1..], b[1..], c[1..]);
    }
  }
}
