/** Shared value types of the kprtfwd model: optional values, the two records
    the configuration file holds, and Go's string helpers as the code uses them. */
module Common {

  /** A Go pointer or "value, ok" pair that may be absent. */
  datatype Option<T> = None | Some(value: T)

  /** A Go (value, error) pair. */
  datatype Result<T, E> = Ok(value: T) | Err(error: E)

  /** One port-forward entry of the configuration (pkg/config/types.go). */
  datatype PortForwardConfig = PortForwardConfig(
    ID: string,
    Context: string,
    Namespace: string,
    Service: string,
    PortRemote: int,
    PortLocal: int)

  /** A named group of forward IDs that is activated together. */
  datatype Project = Project(Name: string, Forwards: seq<string>)

  /** The IDs of a config list, in list order. */
  function IDs(configs: seq<PortForwardConfig>): (r: seq<string>)
    ensures |r| == |configs|
    ensures forall i :: 0 <= i < |configs| ==> r[i] == configs[i].ID
  {
    if configs == [] then [] else IDs(configs[..|configs| - 1]) + [configs[|configs| - 1].ID]
  }

  /** The first config index with this ID, searching from i; -1 if none. */
  function IndexOfIDFrom(configs: seq<PortForwardConfig>, id: string, i: nat): (r: int)
    requires i <= |configs|
    ensures r == -1 || (i <= r < |configs| && configs[r].ID == id)
    ensures r >= 0 ==> forall k :: i <= k < r ==> configs[k].ID != id
    ensures r == -1 <==> forall k :: i <= k < |configs| ==> configs[k].ID != id
    decreases |configs| - i
  {
    if i == |configs| then -1
    else if configs[i].ID == id then i
    else IndexOfIDFrom(configs, id, i + 1)
  }

  /** The first config with this ID, as GetIndexByID and the UI's index
      lookups find it; -1 if none. */
  function IndexOfID(configs: seq<PortForwardConfig>, id: string): (r: int)
    ensures -1 <= r < |configs|
    ensures r >= 0 ==> configs[r].ID == id && forall k :: 0 <= k < r ==> configs[k].ID != id
    ensures r == -1 <==> id !in IDs(configs)
  {
    var r := IndexOfIDFrom(configs, id, 0);
    if r == -1 then
      assert forall k :: 0 <= k < |configs| ==> IDs(configs)[k] != id;
      r
    else
      assert IDs(configs)[r] == id;
      r
  }

  /** The names of a project list, in list order. */
  function Names(projects: seq<Project>): (r: seq<string>)
    ensures |r| == |projects|
    ensures forall i :: 0 <= i < |projects| ==> r[i] == projects[i].Name
  {
    if projects == [] then [] else Names(projects[..|projects| - 1]) + [projects[|projects| - 1].Name]
  }

  /** The elements of s other than x, in order: the slice a Go loop builds by
      appending every element that differs from x. */
  function Without(s: seq<string>, x: string): (r: seq<string>)
    ensures |r| <= |s|
    ensures x !in r
    ensures forall y :: y in r ==> y in s
  {
    if s == [] then []
    else if s[|s| - 1] != x then Without(s[..|s| - 1], x) + [s[|s| - 1]]
    else Without(s[..|s| - 1], x)
  }

  /** Without removes x and nothing else: every other value keeps its multiplicity. */
  lemma {:induction false} WithoutCounts(s: seq<string>, x: string, y: string)
    ensures multiset(Without(s, x))[y] == if y == x then 0 else multiset(s)[y]
  {
    if s != [] {
      WithoutCounts(s[..|s| - 1], x, y);
      assert s == s[..|s| - 1] + [s[|s| - 1]];
    }
  }

  /** Without changes nothing exactly when x does not occur. */
  lemma {:induction false} WithoutIdentity(s: seq<string>, x: string)
    ensures Without(s, x) == s <==> x !in s
    ensures |Without(s, x)| == |s| <==> x !in s
  {
    if s != [] {
      WithoutIdentity(s[..|s| - 1], x);
      assert s == s[..|s| - 1] + [s[|s| - 1]];
    }
  }

  /** The elements of s that belong to known, in order. */
  function KeepKnown(s: seq<string>, known: set<string>): (r: seq<string>)
    ensures |r| <= |s|
    ensures forall y :: y in r ==> y in s && y in known
  {
    if s == [] then []
    else if s[|s| - 1] in known then KeepKnown(s[..|s| - 1], known) + [s[|s| - 1]]
    else KeepKnown(s[..|s| - 1], known)
  }

  /** KeepKnown keeps every known element with its multiplicity, and shortens
      the list exactly when some element is unknown. */
  lemma {:induction false} KeepKnownFacts(s: seq<string>, known: set<string>, y: string)
    ensures multiset(KeepKnown(s, known))[y] == if y in known then multiset(s)[y] else 0
    ensures |KeepKnown(s, known)| == |s| <==> forall k :: 0 <= k < |s| ==> s[k] in known
  {
    if s != [] {
      KeepKnownFacts(s[..|s| - 1], known, y);
      assert s == s[..|s| - 1] + [s[|s| - 1]];
    }
  }
}

/** The subset of Go's `strings` and `strconv` packages the code relies on. */
module GoStrings {

  /** unicode.IsSpace: ASCII and Latin-1 white space plus the Unicode space separators. */
  predicate IsSpace(c: char) {
    c == ' ' || c == '\t' || c == '\n' || c == '\r' || c == '\U{000B}' || c == '\U{000C}'
    || c == '\U{0085}' || c == '\U{00A0}' || c == '\U{1680}'
    || ('\U{2000}' <= c <= '\U{200A}')
    || c == '\U{2028}' || c == '\U{2029}' || c == '\U{202F}' || c == '\U{205F}' || c == '\U{3000}'
  }

  /** Drops leading white space. */
  function TrimLeft(s: string): string {
    if |s| > 0 && IsSpace(s[0]) then TrimLeft(s[1..]) else s
  }

  /** Drops trailing white space. */
  function TrimRight(s: string): string {
    if |s| > 0 && IsSpace(s[|s| - 1]) then TrimRight(s[..|s| - 1]) else s
  }

  /** strings.TrimSpace. */
  function TrimSpace(s: string): string {
    TrimRight(TrimLeft(s))
  }

  /** TrimLeft drops a prefix of white space, and only that: what is left
      is a suffix of s that does not start with a space. */
  lemma {:induction false} TrimLeftShape(s: string)
    ensures |TrimLeft(s)| <= |s| && TrimLeft(s) == s[|s| - |TrimLeft(s)|..]
    ensures forall k :: 0 <= k < |s| - |TrimLeft(s)| ==> IsSpace(s[k])
    ensures TrimLeft(s) == [] || !IsSpace(TrimLeft(s)[0])
  {
    if |s| > 0 && IsSpace(s[0]) {
      TrimLeftShape(s[1..]);
    }
  }

  /** TrimRight drops a suffix of white space, and only that: what is left
      is a prefix of s that does not end with a space. */
  lemma {:induction false} TrimRightShape(s: string)
    ensures |TrimRight(s)| <= |s| && TrimRight(s) == s[..|TrimRight(s)|]
    ensures forall k :: |TrimRight(s)| <= k < |s| ==> IsSpace(s[k])
    ensures TrimRight(s) == [] || !IsSpace(TrimRight(s)[|TrimRight(s)| - 1])
  {
    if |s| > 0 && IsSpace(s[|s| - 1]) {
      TrimRightShape(s[..|s| - 1]);
    }
  }

  /** TrimSpace leaves no white space at either end and never lengthens. */
  lemma TrimSpaceShape(s: string)
    ensures |TrimSpace(s)| <= |s|
    ensures Trimmed(TrimSpace(s))
  {
    TrimLeftShape(s);
    TrimRightShape(TrimLeft(s));
    var l := TrimLeft(s);
    var r := TrimRight(l);
    if r != [] {
      assert r[0] == l[0];
    }
  }

  /** A string made only of white space trims to the empty string, and only such a string does. */
  lemma TrimSpaceEmpty(s: string)
    ensures TrimSpace(s) == [] <==> forall k :: 0 <= k < |s| ==> IsSpace(s[k])
  {
    TrimLeftShape(s);
    var l := TrimLeft(s);
    TrimRightShape(l);
    if l != [] {
      assert l[0] == s[|s| - |l|];
    }
  }

  /** s has no white space at either end. */
  predicate Trimmed(s: string) {
    s == [] || (!IsSpace(s[0]) && !IsSpace(s[|s| - 1]))
  }

  /** A string is its own trim exactly when it has no white space at either end. */
  lemma TrimSpaceIdentity(s: string)
    ensures TrimSpace(s) == s <==> Trimmed(s)
  {
    TrimSpaceShape(s);
  }

  /** The ASCII part of strings.ToLower. */
  function LowerChar(c: char): char {
    if 'A' <= c <= 'Z' then (c as int + 32) as char else c
  }

  function ToLower(s: string): (r: string)
    ensures |r| == |s|
    ensures forall i :: 0 <= i < |s| ==> r[i] == LowerChar(s[i])
  {
    if s == [] then [] else ToLower(s[..|s| - 1]) + [LowerChar(s[|s| - 1])]
  }

  predicate HasPrefix(s: string, prefix: string) {
    |prefix| <= |s| && s[..|prefix|] == prefix
  }

  predicate HasSuffix(s: string, suffix: string) {
    |suffix| <= |s| && s[|s| - |suffix|..] == suffix
  }

  /** strings.Contains: t occurs in s at some offset. */
  predicate IsSubstring(t: string, s: string) {
    exists i | 0 <= i <= |s| - |t| :: OccursAt(t, s, i)
  }

  /** t occurs in s starting at offset i. */
  predicate OccursAt(t: string, s: string, i: int) {
    0 <= i <= |s| - |t| && s[i..i + |t|] == t
  }

  /** Decimal digits of a natural number, as strconv.Itoa writes them. */
  function Digits(n: nat): (r: string)
    ensures |r| >= 1
    ensures forall k :: 0 <= k < |r| ==> '0' <= r[k] <= '9'
    decreases n
  {
    if n < 10 then [('0' as int + n) as char] else Digits(n / 10) + [('0' as int + n % 10) as char]
  }

  /** fmt's %d and strconv.Itoa: an optional '-' followed by the decimal digits. */
  function FormatInt(n: int): (r: string)
    ensures |r| >= 1
    ensures n < 0 <==> r[0] == '-'
  {
    if n < 0 then "-" + Digits(-n) else Digits(n)
  }

  /** Go's string comparison: lexicographic by code point, which is the order of the UTF-8 bytes. */
  predicate LexLess(a: string, b: string) {
    if |a| == 0 then |b| > 0
    else if |b| == 0 then false
    else a[0] < b[0] || (a[0] == b[0] && LexLess(a[1..], b[1..]))
  }

  /** LexLess is a strict total order: irreflexive, transitive and total on distinct strings. */
  lemma {:induction false} LexLessIrreflexive(a: string)
    ensures !LexLess(a, a)
  {
    if |a| > 0 {
      LexLessIrreflexive(a[1..]);
    }
  }

  lemma {:induction false} LexLessTotal(a: string, b: string)
    requires a != b
    ensures LexLess(a, b) || LexLess(b, a)
  {
    if |a| > 0 && |b| > 0 && a[0] == b[0] {
      assert a == [a[0]] + a[1..] && b == [b[0]] + b[1..];
      LexLessTotal(a[1..], b[1..]);
    }
  }

  lemma {:induction false} LexLessTransitive(a: string, b: string, c: string)
    requires LexLess(a, b) && LexLess(b, c)
    ensures LexLess(a, c)
  {
    if |a| > 0 && a[0] == b[0] && b[0] == c[0] {
      LexLessTransitive(a[1..], b[1..], c[1..]);
    }
  }
}
