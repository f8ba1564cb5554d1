/** The filter bar (components/FilterBar.tsx): the label shown for a category
    identifier, and the two option lists of its select boxes. */
module FilterBar {

  import opened Text
  import opened SortProjection

  /** `word.charAt(0).toUpperCase() + word.slice(1)`; the empty word stays empty. */
  function Capitalize(w: string): (r: string)
    ensures |r| == |w|
    ensures r != [] ==> r[0] == ToUpper(w[0]) && r[1..] == w[1..]
  {
    if w == [] then [] else [ToUpper(w[0])] + w[1..]
  }

  /** `.map(Capitalize)` over the words. */
  function CapitalizeAll(ws: seq<string>): (r: seq<string>)
    ensures |r| == |ws|
    ensures forall i :: 0 <= i < |ws| ==> r[i] == Capitalize(ws[i])
  {
    if ws == [] then [] else [Capitalize(ws[0])] + CapitalizeAll(ws[1..])
  }


  /** An independent reading of the same rule, one character at a time: a `-`
      becomes a space, and the first character of each word is upper-cased. */
  function WordStartScan(s: string, atWordStart: bool): (r: string)
    ensures |r| == |s|
  {
    if s == [] then []
    else if s[0] == '-' then [' '] + WordStartScan(s[1..], true)
    else [if atWordStart then ToUpper(s[0]) else s[0]] + WordStartScan(s[1..], false)
  }

  /** The character of the formatted label at position `i`. */
  function FormattedChar(s: string, i: nat): char
    requires i < |s|
  {
    if s[i] == '-' then ' '
    else if i == 0 || s[i - 1] == '-' then ToUpper(s[i])
    else s[i]
  }

  /** The split/map/join pipeline with the first word capitalised or not. */
  function Pipeline(ws: seq<string>, capitalizeFirst: bool): string
    requires |ws| >= 1
  {
    Join([if capitalizeFirst then Capitalize(ws[0]) else ws[0]] + CapitalizeAll(ws[1..]), ' ')
  }

  lemma {:induction false} PipelineIsScan(s: string, atWordStart: bool)
    ensures Pipeline(Split(s, '-'), atWordStart) == WordStartScan(s, atWordStart)
    decreases |s|
  {
    if s != [] {
      var rest := Split(s[1..], '-');
      if s[0] == '-' {
        PipelineIsScan(s[1..], true);
        assert Split(s, '-') == [[]] + rest;
        assert CapitalizeAll(rest) == [Capitalize(rest[0])] + CapitalizeAll(rest[1..]);
        JoinCons([], CapitalizeAll(rest), ' ');
      } else {
        PipelineIsScan(s[1..], false);
        var first := [s[0]] + rest[0];
        assert Split(s, '-') == [first] + rest[1..];
        var c := if atWordStart then ToUpper(s[0]) else s[0];
        assert (if atWordStart then Capitalize(first) else first) == [c] + rest[0] by {
          assert first[1..] == rest[0];
        }
        JoinHeadChar(c, rest[0], CapitalizeAll(rest[1..]), ' ');
      }
    }
  }

  lemma {:induction false} ScanAt(s: string, atWordStart: bool, i: nat)
    requires i < |s|
    ensures WordStartScan(s, atWordStart)[i]
         == if s[i] == '-' then ' '
            else if (if i == 0 then atWordStart else s[i - 1] == '-') then ToUpper(s[i])
            else s[i]
    decreases i
  {
    if i > 0 {
      ScanAt(s[1..], s[0] == '-', i - 1);
    }
  }

  /** `formatCategoryName`: split on `-`, capitalise each word, join with a
      space. Character by character, the label is as long as the identifier,
      every `-` has become a space, the first character and each one after a
      `-` are upper-cased and the rest are unchanged; so no hyphen is left. */
  function FormatCategoryName(category: string): (r: string)
    ensures r == WordStartScan(category, true)
    ensures |r| == |category|
    ensures forall i :: 0 <= i < |category| ==> r[i] == FormattedChar(category, i)
    ensures '-' !in r
  {
    PipelineIsScan(category, true);
    var r := Join(CapitalizeAll(Split(category, '-')), ' ');
    assert r == Pipeline(Split(category, '-'), true);
    assert forall i :: 0 <= i < |category| ==> r[i] == FormattedChar(category, i) by {
      forall i | 0 <= i < |category| ensures r[i] == FormattedChar(category, i) {
        ScanAt(category, true, i);
      }
    }
    r
  }

  /** An identifier without hyphens changes only in its first character. */
  lemma FormatWithoutHyphens(s: string)
    requires '-' !in s && s != []
    ensures FormatCategoryName(s) == [ToUpper(s[0])] + s[1..]
  {
    var f := FormatCategoryName(s);
    forall i | 0 <= i < |s| ensures f[i] == ([ToUpper(s[0])] + s[1..])[i] {
      assert f[i] == FormattedChar(s, i);
      if i > 0 { assert s[i - 1] != '-'; }
    }
  }

  /** Formatting a label again leaves it as it is. */
  lemma FormatIdempotent(s: string)
    ensures FormatCategoryName(FormatCategoryName(s)) == FormatCategoryName(s)
  {
    var f := FormatCategoryName(s);
    if f != [] {
      FormatWithoutHyphens(f);
      assert f[0] == FormattedChar(s, 0);
      assert ToUpper(f[0]) == f[0];
      assert [f[0]] + f[1..] == f;
    }
  }

  /** The words of a label are the capitalised words of the identifier; in
      particular an empty word (from `--` or an edge hyphen) stays empty. */
  lemma FormatWords(s: string)
    requires ' ' !in s
    ensures Split(FormatCategoryName(s), ' ') == CapitalizeAll(Split(s, '-'))
  {
    var ws := CapitalizeAll(Split(s, '-'));
    forall i | 0 <= i < |ws| ensures ' ' !in ws[i] {
      var w := Split(s, '-')[i];
      assert ' ' !in w;
      if w != [] { assert ws[i] == [ToUpper(w[0])] + w[1..]; }
    }
    SplitJoin(ws, ' ');
  }

  /** One `<option>` of a select box: the value sent on change and the text shown. */
  datatype SelectOption = SelectOption(value: string, text: string)

  /** The category select: "All Categories" first, then one option per category
      in the order received, labelled by `formatCategoryName`. */
  function CategoryOptions(categories: seq<string>): (r: seq<SelectOption>)
    ensures |r| == |categories| + 1
    ensures r[0] == SelectOption("all", "All Categories")
    ensures forall i :: 0 <= i < |categories| ==>
              r[i + 1] == SelectOption(categories[i], FormatCategoryName(categories[i]))
  {
    [SelectOption("all", "All Categories")]
      + seq(|categories|, i requires 0 <= i < |categories| =>
              SelectOption(categories[i], FormatCategoryName(categories[i])))
  }

  /** The values the category select can send are "all" followed by the categories. */
  lemma CategoryOptionValues(categories: seq<string>)
    ensures var r := CategoryOptions(categories);
            seq(|r|, i requires 0 <= i < |r| => r[i].value) == ["all"] + categories
  {
  }

  /** The sort select, in display order. */
  const SortOptions: seq<SelectOption> := [
    SelectOption("default", "Default"),
    SelectOption("price-asc", "Price: Low to High"),
    SelectOption("price-desc", "Price: High to Low"),
    SelectOption("title-asc", "Title: A to Z"),
    SelectOption("title-desc", "Title: Z to A")
  ]

  /** The keys in the order the sort select lists them. */
  const SortKeysInOrder: seq<SortKey> := [Default, PriceAsc, PriceDesc, TitleAsc, TitleDesc]

  /** The sort select offers one option per sort key, in display order, each
      sending that key's name, so each option selects its own key and every
      key can be selected. */
  lemma SortOptionsSelectEachKey()
    ensures |SortOptions| == |SortKeysInOrder| == 5
    ensures forall i :: 0 <= i < 5 ==> SortOptions[i].value == KeyName(SortKeysInOrder[i])
    ensures forall i :: 0 <= i < 5 ==> ParseSortOption(SortOptions[i].value) == SortKeysInOrder[i]
    ensures forall key: SortKey :: key in SortKeysInOrder
  {
    forall i | 0 <= i < 5
      ensures ParseSortOption(SortOptions[i].value) == SortKeysInOrder[i]
    {
      ParseKeyName(SortKeysInOrder[i]);
    }
    forall key: SortKey ensures key in SortKeysInOrder {
      match key
      case Default => assert SortKeysInOrder[0] == key;
      case PriceAsc => assert SortKeysInOrder[1] == key;
      case PriceDesc => assert SortKeysInOrder[2] == key;
      case TitleAsc => assert SortKeysInOrder[3] == key;
      case TitleDesc => assert SortKeysInOrder[4] == key;
    }
  }
}
