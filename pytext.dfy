/** The few Python string operations the backend relies on: `str.strip()`,
    `str.replace(old, new)`, the `str()` of an optional value and the
    truthiness of an optional string. */
module PyText {
  import opened Wrappers

  /** Python's `str.isspace()` for a single character: the ASCII controls
      TAB..CR and FS..US, SPACE, NEL, NBSP and the Unicode space separators. */
  predicate IsSpace(c: char) {
    || ('\t' <= c <= '\r')
    || ('\U{1C}' <= c <= '\U{1F}')
    || c == ' '
    || c == '\U{85}'
    || c == '\U{A0}'
    || c == '\U{1680}'
    || ('\U{2000}' <= c <= '\U{200A}')
    || c == '\U{2028}'
    || c == '\U{2029}'
    || c == '\U{202F}'
    || c == '\U{205F}'
    || c == '\U{3000}'
  }

  /** Neither end of `s` is whitespace. */
  predicate Trimmed(s: string) {
    s == [] || (!IsSpace(s[0]) && !IsSpace(s[|s| - 1]))
  }

  /** The number of whitespace characters `s` starts with. */
  function LeadingSpaces(s: string): (n: nat)
    ensures n <= |s| && (n == |s| || !IsSpace(s[n]))
    ensures forall i :: 0 <= i < n ==> IsSpace(s[i])
    decreases |s|
  {
    if s != [] && IsSpace(s[0]) then
      var n := 1 + LeadingSpaces(s[1..]);
      assert forall i :: 1 <= i < n ==> s[i] == s[1..][i - 1];
      n
    else
      0
  }

  /** The number of whitespace characters `s` ends with. */
  function TrailingSpaces(s: string): (n: nat)
    ensures n <= |s| && (n == |s| || !IsSpace(s[|s| - n - 1]))
    ensures forall i :: |s| - n <= i < |s| ==> IsSpace(s[i])
    decreases |s|
  {
    if s != [] && IsSpace(s[|s| - 1]) then
      var n := 1 + TrailingSpaces(s[..|s| - 1]);
      assert forall i :: |s| - n <= i < |s| - 1 ==> s[i] == s[..|s| - 1][i];
      n
    else
      0
  }

  /** `s.lstrip()`: drops the leading whitespace and nothing else. */
  function LStrip(s: string): (r: string)
    ensures |r| <= |s| && r == s[|s| - |r|..]
    ensures forall i :: 0 <= i < |s| - |r| ==> IsSpace(s[i])
    ensures r == [] || !IsSpace(r[0])
  {
    s[LeadingSpaces(s)..]
  }

  /** `s.rstrip()`: drops the trailing whitespace and nothing else. */
  function RStrip(s: string): (r: string)
    ensures |r| <= |s| && r == s[..|r|]
    ensures forall i :: |r| <= i < |s| ==> IsSpace(s[i])
    ensures r == [] || !IsSpace(r[|r| - 1])
  {
    s[..|s| - TrailingSpaces(s)]
  }

  /** `s.strip()`: `s` without its leading and its trailing whitespace, so
      that neither end of the result is whitespace. */
  function Strip(s: string): (r: string)
    ensures Trimmed(r) && |r| <= |s|
  {
    var l := LStrip(s);
    var r := RStrip(l);
    assert r != [] ==> r[0] == l[0];
    r
  }

  /** `r` is the slice of `s` that starts at `k`, and everything of `s`
      before or behind it is whitespace. */
  predicate MarginsCut(s: string, k: nat, r: string) {
    && k + |r| <= |s| && r == s[k..k + |r|]
    && (forall i :: 0 <= i < k ==> IsSpace(s[i]))
    && (forall i :: k + |r| <= i < |s| ==> IsSpace(s[i]))
  }

  /** A prefix `r` of the suffix `l` of `s`, with only whitespace around it
      in `l` and before `l` in `s`, is what is left of `s` after cutting
      whitespace margins. */
  lemma MiddleSlice(s: string, l: string, r: string, k: nat)
    requires k <= |s| && l == s[k..]
    requires forall i :: 0 <= i < k ==> IsSpace(s[i])
    requires |r| <= |l| && r == l[..|r|]
    requires forall i :: |r| <= i < |l| ==> IsSpace(l[i])
    ensures MarginsCut(s, k, r)
  {
    forall i | k + |r| <= i < |s|
      ensures IsSpace(s[i])
    {
      assert s[i] == l[i - k];
    }
  }

  /** `Strip` cuts off exactly the whitespace margins: the result is the
      slice of `s` after its leading whitespace, and everything before and
      behind it is whitespace. */
  lemma StripMargins(s: string)
    ensures MarginsCut(s, |s| - |LStrip(s)|, Strip(s))
  {
    var l := LStrip(s);
    var r := RStrip(l);
    assert Strip(s) == r;
    MiddleSlice(s, l, r, |s| - |l|);
  }

  /** A string that is already trimmed is left as it is, so `Strip` is idempotent. */
  lemma StripKeepsTrimmed(s: string)
    requires Trimmed(s)
    ensures Strip(s) == s
  {
    assert LStrip(s) == s;
    assert RStrip(s) == s;
  }

  /** `pat` occurs somewhere in `s`. */
  predicate Contains(s: string, pat: string)
    decreases |s|
  {
    |pat| <= |s| && (s[..|pat|] == pat || Contains(s[1..], pat))
  }

  /** Python's `s.replace(pat, rep)` for a non-empty `pat`: scanning from the
      left, every non-overlapping occurrence of `pat` is replaced by `rep`. */
  function Replace(s: string, pat: string, rep: string): (r: string)
    requires pat != []
    ensures !Contains(s, pat) ==> r == s
    ensures rep == [] ==> |r| <= |s|
    decreases |s|
  {
    if |s| < |pat| then s
    else if s[..|pat|] == pat then rep + Replace(s[|pat|..], pat, rep)
    else [s[0]] + Replace(s[1..], pat, rep)
  }

  /** When `pat` does not start inside a non-empty `a`, the text
      `a + pat + b` does not start with `pat`. */
  lemma NotAtFront(a: string, pat: string, b: string)
    requires pat != [] && a != [] && !Contains(a + pat[..|pat| - 1], pat)
    ensures (a + pat + b)[..|pat|] != pat
  {
    var x := a + pat[..|pat| - 1];
    assert x[..|pat|] == (a + pat + b)[..|pat|];
  }

  /** When `pat` does not start inside a non-empty `a`, it does not start
      inside `a[1..]` either. */
  lemma NotInRest(a: string, pat: string)
    requires pat != [] && a != [] && !Contains(a + pat[..|pat| - 1], pat)
    ensures !Contains(a[1..] + pat[..|pat| - 1], pat)
  {
    TailOfConcat(a, pat[..|pat| - 1]);
  }

  lemma TailOfConcat(a: string, c: string)
    requires a != []
    ensures (a + c)[1..] == a[1..] + c
  {
  }

  /** Putting the first character back in front of the rest. */
  lemma Regroup(a: string, x: string, y: string)
    requires a != []
    ensures [a[0]] + (a[1..] + x + y) == a + x + y
  {
    assert a == [a[0]] + a[1..];
  }

  /** The first occurrence of `pat` is replaced and the scan goes on after
      it: text in front of it is kept as it is. */
  lemma {:induction false} ReplaceFirst(a: string, pat: string, b: string, rep: string)
    requires pat != [] && !Contains(a + pat[..|pat| - 1], pat)
    ensures Replace(a + pat + b, pat, rep) == a + rep + Replace(b, pat, rep)
    decreases |a|
  {
    var s := a + pat + b;
    if a == [] {
      assert s == pat + b && s[..|pat|] == pat && s[|pat|..] == b;
    } else {
      NotAtFront(a, pat, b);
      NotInRest(a, pat);
      var t := a[1..] + pat + b;
      assert s[1..] == t;
      ReplaceFirst(a[1..], pat, b, rep);
      assert Replace(s, pat, rep) == [a[0]] + Replace(t, pat, rep);
      Regroup(a, rep, Replace(b, pat, rep));
    }
  }

  /** `str(x)` (and an f-string field) for an optional string: `None` prints as "None". */
  function PyStr(x: Option<string>): string {
    match x
    case None => "None"
    case Some(s) => s
  }

  /** Truthiness of an optional string: neither `None` nor empty. */
  predicate Truthy(x: Option<string>) {
    x.Some? && x.value != ""
  }
}
