/**
 * The URL gate in front of the generator (main.py): the input, once
 * trimmed, must be non-empty and match `URL_RE`, the pattern `^https?://`
 * compiled with `re.IGNORECASE`.
 */
module UrlGate {
  import opened Wrappers
  import opened Text

  /** How `re.IGNORECASE` sees a character when comparing it with a
      lower-case letter of the pattern: ASCII capitals fold to their small
      letter, and U+017F LATIN SMALL LETTER LONG S folds to 's'. */
  function Fold(c: char): (r: char)
    ensures r != c ==> ('A' <= c <= 'Z' || c == '\U{17F}')
    ensures !('a' <= r <= 'z') ==> r == c
  {
    if c == '\U{17F}' then 's' else LowerChar(c)
  }

  function FoldAll(s: string): (r: string)
    ensures |r| == |s|
  {
    seq(|s|, k requires 0 <= k < |s| => Fold(s[k]))
  }

  /** `URL_RE.match(t)`: "http" in any case, an optional "s", then "://".
      Backtracking out of the optional "s" cannot help, since a character
      that folds to 's' is never ':'. */
  function MatchScheme(t: string): bool {
    && |t| >= 4
    && Fold(t[0]) == 'h' && Fold(t[1]) == 't' && Fold(t[2]) == 't' && Fold(t[3]) == 'p'
    && var rest := if |t| > 4 && Fold(t[4]) == 's' then t[5..] else t[4..];
       StartsWith(rest, "://")
  }

  /** Starts with "http://" or "https://", ignoring case. */
  predicate HasWebScheme(u: string) {
    StartsWith(FoldAll(u), "http://") || StartsWith(FoldAll(u), "https://")
  }

  /** A folded prefix, character by character. */
  lemma FoldedChars(t: string, lit: string)
    requires StartsWith(FoldAll(t), lit)
    ensures forall k :: 0 <= k < |lit| ==> Fold(t[k]) == lit[k]
  {
    forall k | 0 <= k < |lit| ensures Fold(t[k]) == lit[k] {
      assert FoldAll(t)[..|lit|][k] == FoldAll(t)[k];
    }
  }

  /** The "://" that follows the scheme name, found from folded characters. */
  lemma SeparatorAt(t: string, n: nat, lit: string)
    requires n + 3 == |lit| <= |t|
    requires lit[n..] == "://"
    requires forall k :: n <= k < |lit| ==> Fold(t[k]) == lit[k]
    ensures StartsWith(t[n..], "://")
  {
    forall j | 0 <= j < 3 ensures t[n..][..3][j] == "://"[j] {
      assert Fold(t[n + j]) == lit[n..][j];
    }
  }

  /** The pattern accepts exactly the strings that begin with one of the two
      schemes, ignoring case. */
  lemma MatchSchemeIff(t: string)
    ensures MatchScheme(t) <==> HasWebScheme(t)
  {
    var f := FoldAll(t);
    if MatchScheme(t) {
      var secure := |t| > 4 && Fold(t[4]) == 's';
      var n := if secure then 5 else 4;
      var lit := if secure then "https://" else "http://";
      assert lit[..4] == "http";
      forall k | 0 <= k < |lit| ensures f[k] == lit[k] {
        if k >= n {
          assert t[k] == t[n..][..3][k - n];
        }
      }
      assert f[..|lit|] == lit;
    }
    if StartsWith(f, "https://") {
      FoldedChars(t, "https://");
      SeparatorAt(t, 5, "https://");
    } else if StartsWith(f, "http://") {
      FoldedChars(t, "http://");
      SeparatorAt(t, 4, "http://");
    }
  }

  /** The gate: the trimmed URL to fetch, or `None` when the page shows
      "Please enter a valid `http(s)://` URL." */
  function CheckUrl(input: string): (r: Option<string>)
    ensures r.Some? <==> HasWebScheme(Strip(input))
    ensures r.Some? ==> r.value == Strip(input) && r.value != [] && IsTrimmed(r.value)
  {
    var u := Strip(input);
    MatchSchemeIff(u);
    if u == [] || !MatchScheme(u) then None else Some(u)
  }

  /** The scheme may be written in any mix of cases: a URL with no
      surrounding whitespace whose first characters spell "http://" or
      "https://", each letter small or capital, passes the gate unchanged. */
  lemma AnyCaseSchemeAccepted(scheme: string, lower: string, upper: string, rest: string)
    requires (lower, upper) == ("https://", "HTTPS://") || (lower, upper) == ("http://", "HTTP://")
    requires |scheme| == |lower|
    requires forall k :: 0 <= k < |scheme| ==> scheme[k] == lower[k] || scheme[k] == upper[k]
    requires rest == [] || !IsSpace(rest[|rest| - 1])
    ensures CheckUrl(scheme + rest) == Some(scheme + rest)
  {
    var u := scheme + rest;
    assert forall k :: 0 <= k < |lower| ==> Fold(upper[k]) == lower[k] && Fold(lower[k]) == lower[k];
    forall k | 0 <= k < |lower| ensures FoldAll(u)[..|lower|][k] == lower[k] {
      assert u[k] == scheme[k];
    }
    assert StartsWith(FoldAll(u), lower);
    assert u[|u| - 1] == if rest == [] then scheme[|scheme| - 1] else rest[|rest| - 1];
    StripTrimmed(u);
  }
}
