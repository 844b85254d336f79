/** The pure helpers of src/ui/components/PaletteSelector/PaletteSelector.tsx: name
    normalisation, the palette search filter and the source-kind label. */
module PaletteSelector {
  import opened Types
  import opened Sequences
  import opened Strings

  /** normalizeString: lower-cased, with every whitespace character removed. */
  function NormalizeString(s: string): string
  {
    RemoveWhitespace(ToLower(s))
  }

  /** Normalisation distributes over concatenation. */
  lemma NormalizeAppend(a: string, b: string)
    ensures NormalizeString(a + b) == NormalizeString(a) + NormalizeString(b)
  {
    ToLowerAppend(a, b);
    RemoveWhitespaceAppend(ToLower(a), ToLower(b));
  }

  /** A lower-cased letter is not upper-case, and lower-casing never creates or removes whitespace. */
  lemma LowerCharFacts(c: char)
    ensures !IsAsciiUpper(LowerChar(c))
    ensures IsWhitespace(LowerChar(c)) <==> IsWhitespace(c)
    ensures LowerChar(LowerChar(c)) == LowerChar(c)
  {
  }

  /** A string without whitespace and upper-case letters is its own normal form. */
  lemma {:induction false} NormalFormIsFixed(s: string)
    requires forall i :: 0 <= i < |s| ==> !IsWhitespace(s[i]) && !IsAsciiUpper(s[i])
    ensures NormalizeString(s) == s
  {
    assert ToLower(s) == s;
    if |s| > 0 {
      NormalFormIsFixed(s[1..]);
      assert ToLower(s[1..]) == s[1..];
    }
  }

  /** The normal form has no whitespace and no upper-case letter, normalising twice
      changes nothing, and only a blank string normalises to the empty string. */
  lemma NormalizeFacts(s: string)
    ensures forall i :: 0 <= i < |NormalizeString(s)| ==>
      !IsWhitespace(NormalizeString(s)[i]) && !IsAsciiUpper(NormalizeString(s)[i])
    ensures NormalizeString(NormalizeString(s)) == NormalizeString(s)
    ensures |NormalizeString(s)| == 0 <==> IsBlank(s)
  {
    var n := NormalizeString(s);
    var l := ToLower(s);
    forall i | 0 <= i < |n| ensures !IsAsciiUpper(n[i]) {
      assert n[i] in l;
      var j :| 0 <= j < |l| && l[j] == n[i];
      LowerCharFacts(s[j]);
    }
    NormalFormIsFixed(n);
    if !IsBlank(s) {
      var j :| 0 <= j < |s| && !IsWhitespace(s[j]);
      LowerCharFacts(s[j]);
      assert l[j] in l && !IsWhitespace(l[j]);
      assert l[j] in n;
    } else {
      forall c | c in l ensures IsWhitespace(c) {
        var j :| 0 <= j < |l| && l[j] == c;
        LowerCharFacts(s[j]);
      }
    }
  }

  /** The palette search as the list filter applies it for a normalised query. */
  predicate NameMatches(palette: PaletteInfo, normalizedQuery: string)
  {
    Contains(NormalizeString(palette.name), normalizedQuery)
  }

  /** filterPalettes: a blank query keeps the whole list; otherwise the palettes whose
      normalised name contains the normalised query. */
  function FilterPalettes(palettes: seq<PaletteInfo>, query: string): seq<PaletteInfo>
  {
    if IsBlank(query) then palettes
    else
      var normalizedQuery := NormalizeString(query);
      Filter(p => NameMatches(p, normalizedQuery), palettes)
  }

  /** The search keeps the list's order and keeps a palette, with all its copies, exactly
      when the query is blank or the palette's normalised name contains the normalised query. */
  lemma FilterPalettesSelects(palettes: seq<PaletteInfo>, query: string)
    ensures Subsequence(FilterPalettes(palettes, query), palettes)
    ensures forall i :: 0 <= i < |FilterPalettes(palettes, query)| ==>
      FilterPalettes(palettes, query)[i] in palettes &&
      (IsBlank(query) || Contains(NormalizeString(FilterPalettes(palettes, query)[i].name), NormalizeString(query)))
    ensures forall i :: (0 <= i < |palettes| &&
      (IsBlank(query) || Contains(NormalizeString(palettes[i].name), NormalizeString(query)))) ==>
      palettes[i] in FilterPalettes(palettes, query)
    ensures forall t :: multiset(FilterPalettes(palettes, query))[t] ==
                        (if IsBlank(query) || Contains(NormalizeString(t.name), NormalizeString(query)) then multiset(palettes)[t] else 0)
  {
    if IsBlank(query) {
      SubsequenceReflexive(palettes);
    } else {
      FilterSelects(p => NameMatches(p, NormalizeString(query)), palettes);
      FilterMultiset(p => NameMatches(p, NormalizeString(query)), palettes);
    }
  }

  lemma {:induction false} SubsequenceReflexive<T>(s: seq<T>)
    ensures Subsequence(s, s)
  {
    if |s| > 0 {
      SubsequenceReflexive(s[1..]);
    }
  }

  /** Queries that differ only in case and spacing select the same palettes. */
  lemma QueryCaseAndSpaceInsensitive(palettes: seq<PaletteInfo>, q1: string, q2: string)
    requires NormalizeString(q1) == NormalizeString(q2)
    ensures FilterPalettes(palettes, q1) == FilterPalettes(palettes, q2)
  {
    NormalizeFacts(q1);
    NormalizeFacts(q2);
  }

  /** No palette is lost to normalisation: a palette whose name contains the query
      verbatim is always kept. */
  lemma VerbatimMatchIsKept(palettes: seq<PaletteInfo>, query: string, i: nat)
    requires i < |palettes| && Contains(palettes[i].name, query)
    ensures palettes[i] in FilterPalettes(palettes, query)
  {
    var name := palettes[i].name;
    ContainsIffOccurs(name, query);
    var k :| OccursAt(name, query, k);
    var pre, post := name[..k], name[k + |query|..];
    assert name == pre + query + post;
    NormalizeAppend(pre + query, post);
    NormalizeAppend(pre, query);
    var n := NormalizeString(name);
    var p, q := NormalizeString(pre), NormalizeString(query);
    assert n == p + q + NormalizeString(post);
    assert OccursAt(n, q, |p|) by {
      assert n[|p|..|p| + |q|] == q;
    }
    ContainsIffOccurs(n, q);
    FilterPalettesSelects(palettes, query);
  }

  /** getSourceTypeLabel: the label shown for each palette source. */
  function GetSourceTypeLabel(sourceType: PaletteSourceType): string
  {
    match sourceType
    case VariableSource => "Variables"
    case PageSource => "페이지"
  }

  /** The two sources are labelled differently. */
  lemma SourceLabelsDistinct(a: PaletteSourceType, b: PaletteSourceType)
    ensures GetSourceTypeLabel(a) == GetSourceTypeLabel(b) <==> a == b
  {
    if a != b {
      assert GetSourceTypeLabel(a)[0] != GetSourceTypeLabel(b)[0];
    }
  }
}
