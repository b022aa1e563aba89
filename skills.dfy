/**
 * `normalize_skills` (main.py): turns whatever the model put under
 * "skills" into a list of trimmed, non-empty strings.
 */
module Skills {
  import opened Text

  /** The shapes `normalize_skills` tells apart. A list carries the `str()` of
      each element; any other value carries its own `str()`. */
  datatype RawSkills = Str(s: string) | List(items: seq<string>) | Other(repr: string)

  /** Each entry of `xs`, stripped. */
  function StripAll(xs: seq<string>): (ss: seq<string>)
    ensures |ss| == |xs|
    ensures forall i :: 0 <= i < |ss| ==> IsTrimmed(ss[i])
  {
    seq(|xs|, i requires 0 <= i < |xs| => Strip(xs[i]))
  }

  /** The non-empty entries of `ss`, in order. */
  function NonEmpty(ss: seq<string>): (r: seq<string>)
    ensures |r| <= |ss|
    ensures forall k :: 0 <= k < |r| ==> |r[k]| > 0
  {
    if ss == [] then []
    else
      var init := ss[..|ss| - 1];
      var last := ss[|ss| - 1];
      NonEmpty(init) + (if |last| > 0 then [last] else [])
  }

  /** Every entry the filter keeps comes from `ss`. */
  lemma {:induction false} NonEmptyFrom(ss: seq<string>)
    ensures forall k :: 0 <= k < |NonEmpty(ss)| ==> NonEmpty(ss)[k] in ss
  {
    if ss != [] {
      var init := ss[..|ss| - 1];
      NonEmptyFrom(init);
      assert forall x :: x in init ==> x in ss;
    }
  }

  /** `[x.strip() for x in xs if x.strip()]` */
  function KeepNonBlank(xs: seq<string>): (r: seq<string>)
    ensures |r| <= |xs|
    ensures forall k :: 0 <= k < |r| ==> r[k] != "" && IsTrimmed(r[k])
  {
    NonEmptyFrom(StripAll(xs));
    NonEmpty(StripAll(xs))
  }

  /** How many entries of `ss` are non-empty. */
  function CountNonEmpty(ss: seq<string>): nat {
    if ss == [] then 0
    else CountNonEmpty(ss[..|ss| - 1]) + (if |ss[|ss| - 1]| > 0 then 1 else 0)
  }

  /** `r` lists the non-empty entries of `ss` in their original order: it has
      one element per non-empty entry, and a non-empty entry preceded by `c`
      non-empty entries is `r[c]`. */
  ghost predicate InOrder(ss: seq<string>, r: seq<string>) {
    && |r| == CountNonEmpty(ss)
    && forall i :: 0 <= i < |ss| && |ss[i]| > 0 ==>
         CountNonEmpty(ss[..i]) < |r| && r[CountNonEmpty(ss[..i])] == ss[i]
  }

  /** `r` is the stripped non-blank entries of `xs`, one per such entry, in
      their original order. */
  ghost predicate Selects(xs: seq<string>, r: seq<string>) {
    InOrder(StripAll(xs), r)
  }

  /** The filter keeps every non-empty entry, in the original order, and
      nothing else. */
  lemma {:induction false} NonEmptyInOrder(ss: seq<string>)
    ensures InOrder(ss, NonEmpty(ss))
  {
    if ss != [] {
      NonEmptyInOrder(ss[..|ss| - 1]);
      forall i | 0 <= i < |ss| && |ss[i]| > 0
        ensures CountNonEmpty(ss[..i]) < |NonEmpty(ss)|
        ensures NonEmpty(ss)[CountNonEmpty(ss[..i])] == ss[i]
      {
        InOrderExtend(ss, i);
      }
    }
  }

  /** One step of the induction above: an entry keeps its rank once one more
      entry is appended, and the appended entry lands last. */
  lemma InOrderExtend(ss: seq<string>, i: nat)
    requires i < |ss| && |ss[i]| > 0
    requires InOrder(ss[..|ss| - 1], NonEmpty(ss[..|ss| - 1]))
    ensures CountNonEmpty(ss[..i]) < |NonEmpty(ss)|
    ensures NonEmpty(ss)[CountNonEmpty(ss[..i])] == ss[i]
  {
    var init := ss[..|ss| - 1];
    var prev := NonEmpty(init);
    var last := ss[|ss| - 1];
    assert NonEmpty(ss) == prev + (if |last| > 0 then [last] else []);
    if i < |ss| - 1 {
      assert init[..i] == ss[..i];
      assert init[i] == ss[i];
      assert CountNonEmpty(init[..i]) < |prev| && prev[CountNonEmpty(init[..i])] == init[i];
    } else {
      assert ss[..i] == init;
    }
  }

  /** The list comprehension keeps every non-blank entry, stripped, in the
      original order, and nothing else. */
  lemma KeepNonBlankSelects(xs: seq<string>)
    ensures Selects(xs, KeepNonBlank(xs))
  {
    NonEmptyInOrder(StripAll(xs));
  }

  /** Entries that do not contain `c` stay free of `c` once stripped and
      filtered. */
  lemma KeepNonBlankAvoids(xs: seq<string>, c: char)
    requires forall k :: 0 <= k < |xs| ==> c !in xs[k]
    ensures forall k :: 0 <= k < |KeepNonBlank(xs)| ==> c !in KeepNonBlank(xs)[k]
  {
    var ss := StripAll(xs);
    var r := KeepNonBlank(xs);
    NonEmptyFrom(ss);
    forall k | 0 <= k < |r| ensures c !in r[k] {
      var j :| 0 <= j < |ss| && ss[j] == r[k];
      StripKeepsOut(xs[j], c);
    }
  }

  /** `normalize_skills(raw)` */
  function NormalizeSkills(raw: RawSkills): (r: seq<string>)
    ensures raw.Other? ==> r == [raw.repr]
    ensures !raw.Other? ==> forall k :: 0 <= k < |r| ==> r[k] != "" && IsTrimmed(r[k])
    ensures raw.Str? ==> forall k :: 0 <= k < |r| ==> ',' !in r[k]
    ensures raw.List? ==> |r| <= |raw.items|
  {
    match raw
    case Str(s) =>
      KeepNonBlankAvoids(Split(s, ','), ',');
      KeepNonBlank(Split(s, ','))
    case List(items) => KeepNonBlank(items)
    case Other(repr) => [repr]
  }

  /** A string of skills becomes its comma-separated pieces (the unique
      comma-free pieces that join back to it), stripped, blank ones dropped,
      in order. */
  lemma StrSkillsArePieces(s: string) returns (pieces: seq<string>)
    ensures Join(pieces, ',') == s
    ensures forall k :: 0 <= k < |pieces| ==> ',' !in pieces[k]
    ensures Selects(pieces, NormalizeSkills(Str(s)))
  {
    pieces := Split(s, ',');
    JoinSplit(s, ',');
    KeepNonBlankSelects(pieces);
  }

  /** A list of skills keeps its non-blank elements, stripped, in order. */
  lemma ListSkillsSelected(items: seq<string>)
    ensures Selects(items, NormalizeSkills(List(items)))
  {
    KeepNonBlankSelects(items);
  }
}
