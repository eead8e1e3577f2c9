/**
 * `formatDefinition`: the text shown for one dictionary entry. The text is
 * described as a sequence of lines (`Layout`) and the rendering of each
 * line; the imperative builder is proved to produce exactly that text.
 */
module Format {
  import opened Wrappers
  import opened Text
  import opened Entries
  import opened Styles

  /** The lines of a formatted entry, before styling. */
  datatype Line =
    | Title(word: string, phonetic: string)     // the word, its phonetic if any, then an empty line
    | Header(number: nat, partOfSpeech: string) // "i. pos" opening a meaning
    | Item(number: nat, text: string)           // "j." and a definition
    | Example(text: string)                     // the bulleted example of the definition above
    | Gap                                       // the empty line closing a meaning

  /** One definition: its item line, and an example line only if it has an example. */
  function ItemLines(n: nat, d: Definition): seq<Line> {
    [Item(n, d.definition)] + (if d.example != "" then [Example(d.example)] else [])
  }

  /** The definitions of a meaning, numbered from `n` on. */
  function DefinitionLines(ds: seq<Definition>, n: nat): seq<Line>
    decreases |ds|
  {
    if ds == [] then [] else ItemLines(n, ds[0]) + DefinitionLines(ds[1..], n + 1)
  }

  /** The `n`-th meaning: its header, its definitions numbered from 1, an empty line. */
  function MeaningBlock(n: nat, m: Meaning): seq<Line> {
    [Header(n, m.partOfSpeech)] + DefinitionLines(m.definitions, 1) + [Gap]
  }

  /** The meanings, numbered from `n` on. */
  function MeaningLines(ms: seq<Meaning>, n: nat): seq<Line>
    decreases |ms|
  {
    if ms == [] then [] else MeaningBlock(n, ms[0]) + MeaningLines(ms[1..], n + 1)
  }

  /** The lines of an entry; phonetics other than `phonetic`, and source URLs, are not shown. */
  function Layout(e: WordEntry): seq<Line> {
    [Title(e.word, e.phonetic)] + MeaningLines(e.meanings, 1)
  }

  function RenderLine(st: Styles, l: Line): string {
    match l
    case Title(w, p) => st.keyword(w) + (if p != "" then " " + st.phonetic(p) else "") + "\n\n"
    case Header(n, pos) => st.partOfSpeech(NatToDecimal(n) + ". " + pos) + "\n"
    case Item(n, t) => "   " + st.number(NatToDecimal(n) + ".") + " " + t + "\n"
    case Example(t) => "      " + st.example("\U{2022} " + t) + "\n"
    case Gap => "\n"
  }

  function Render(st: Styles, ls: seq<Line>): string
    decreases |ls|
  {
    if ls == [] then "" else RenderLine(st, ls[0]) + Render(st, ls[1..])
  }

  /** The text `formatDefinition` returns for `e`. */
  function FormatText(st: Styles, e: WordEntry): string {
    Render(st, Layout(e))
  }

  // ---- the builder ----

  /**
   * `formatDefinition`: writes the word and phonetic, then walks the
   * meanings and, inside each, the definitions, appending as it goes.
   */
  method FormatDefinition(st: Styles, entry: WordEntry) returns (text: string)
    ensures text == FormatText(st, entry)
  {
    text := st.keyword(entry.word);
    if entry.phonetic != "" {
      text := text + (" " + st.phonetic(entry.phonetic));
    }
    text := text + "\n\n";
    ghost var title := [Title(entry.word, entry.phonetic)];
    assert text == Render(st, title) by { assert Render(st, title) == RenderLine(st, title[0]) + ""; }
    var ms := entry.meanings;
    for i := 0 to |ms|
      invariant text == Render(st, title + MeaningLines(ms[..i], 1))
    {
      var meaning := ms[i];
      var header := st.partOfSpeech(NatToDecimal(i + 1) + ". " + meaning.partOfSpeech) + "\n";
      text := text + header;
      text := WriteDefinitions(st, text, meaning.definitions);
      text := text + "\n";
      MeaningStep(st, title, ms, i);
    }
    assert ms[..|ms|] == ms;
  }

  /** The inner loop of `formatDefinition`: appends the definitions of one meaning. */
  method WriteDefinitions(st: Styles, text: string, ds: seq<Definition>) returns (out: string)
    ensures out == text + Render(st, DefinitionLines(ds, 1))
  {
    out := text;
    assert text + Render(st, DefinitionLines(ds[..0], 1)) == text;
    for j := 0 to |ds|
      invariant out == text + Render(st, DefinitionLines(ds[..j], 1))
    {
      var def := ds[j];
      DefinitionStep(st, text, ds, j);
      var item := "   " + st.number(NatToDecimal(j + 1) + ".") + " " + def.definition + "\n";
      out := out + item;
      if def.example != "" {
        var example := "      " + st.example("\U{2022} " + def.example) + "\n";
        out := out + example;
      }
    }
    assert ds[..|ds|] == ds;
  }

  /** One turn of the inner loop appends the item line and, if any, the example line. */
  lemma DefinitionStep(st: Styles, text: string, ds: seq<Definition>, j: nat)
    requires j < |ds|
    ensures var before := text + Render(st, DefinitionLines(ds[..j], 1));
      var item := RenderLine(st, Item(j + 1, ds[j].definition));
      text + Render(st, DefinitionLines(ds[..j + 1], 1))
      == if ds[j].example != "" then before + item + RenderLine(st, Example(ds[j].example)) else before + item
  {
    var d := ds[j];
    var prior := DefinitionLines(ds[..j], 1);
    var item := Item(j + 1, d.definition);
    DefinitionLinesSnoc(ds[..j], d, 1);
    assert ds[..j + 1] == ds[..j] + [d];
    assert DefinitionLines(ds[..j + 1], 1) == prior + ItemLines(j + 1, d);
    RenderSnoc(st, prior, item);
    Associative(text, Render(st, prior), RenderLine(st, item));
    if d.example != "" {
      var example := Example(d.example);
      assert prior + ItemLines(j + 1, d) == prior + [item] + [example];
      RenderSnoc(st, prior + [item], example);
      Associative(text, Render(st, prior + [item]), RenderLine(st, example));
    } else {
      assert prior + ItemLines(j + 1, d) == prior + [item];
    }
  }

  lemma Associative(a: string, b: string, c: string)
    ensures a + (b + c) == (a + b) + c
  {
  }

  /** One turn of the outer loop appends the `i+1`-th meaning block. */
  lemma MeaningStep(st: Styles, title: seq<Line>, ms: seq<Meaning>, i: nat)
    requires i < |ms|
    ensures Render(st, title + MeaningLines(ms[..i + 1], 1))
         == Render(st, title + MeaningLines(ms[..i], 1))
            + RenderLine(st, Header(i + 1, ms[i].partOfSpeech))
            + Render(st, DefinitionLines(ms[i].definitions, 1)) + "\n"
  {
    var ds := ms[i].definitions;
    var prefix := title + MeaningLines(ms[..i], 1);
    MeaningLinesSnoc(ms[..i], ms[i], 1);
    assert ms[..i + 1] == ms[..i] + [ms[i]];
    assert title + MeaningLines(ms[..i + 1], 1) == prefix + [Header(i + 1, ms[i].partOfSpeech)] + DefinitionLines(ds, 1) + [Gap];
    RenderAppend(st, prefix + [Header(i + 1, ms[i].partOfSpeech)], DefinitionLines(ds, 1));
    RenderSnoc(st, prefix, Header(i + 1, ms[i].partOfSpeech));
    RenderSnoc(st, prefix + [Header(i + 1, ms[i].partOfSpeech)] + DefinitionLines(ds, 1), Gap);
  }

  // ---- algebra of the layout ----

  lemma {:induction false} RenderAppend(st: Styles, a: seq<Line>, b: seq<Line>)
    ensures Render(st, a + b) == Render(st, a) + Render(st, b)
    decreases |a|
  {
    if a == [] {
      assert a + b == b;
    } else {
      var head, rest := RenderLine(st, a[0]), a[1..];
      assert (a + b)[0] == a[0];
      assert (a + b)[1..] == rest + b;
      RenderAppend(st, rest, b);
      calc {
        Render(st, a + b);
        head + Render(st, rest + b);
        head + (Render(st, rest) + Render(st, b));
        (head + Render(st, rest)) + Render(st, b);
        Render(st, a) + Render(st, b);
      }
    }
  }

  /** Appending one line appends its rendering. */
  lemma RenderSnoc(st: Styles, a: seq<Line>, l: Line)
    ensures Render(st, a + [l]) == Render(st, a) + RenderLine(st, l)
  {
    RenderAppend(st, a, [l]);
    assert Render(st, [l]) == RenderLine(st, l) + Render(st, []);
  }

  lemma {:induction false} DefinitionLinesSnoc(ds: seq<Definition>, d: Definition, n: nat)
    ensures DefinitionLines(ds + [d], n) == DefinitionLines(ds, n) + ItemLines(n + |ds|, d)
    decreases |ds|
  {
    if ds == [] {
      assert DefinitionLines([d], n) == ItemLines(n, d) + DefinitionLines([], n + 1);
    } else {
      assert (ds + [d])[1..] == ds[1..] + [d];
      DefinitionLinesSnoc(ds[1..], d, n + 1);
    }
  }

  lemma {:induction false} MeaningLinesSnoc(ms: seq<Meaning>, m: Meaning, n: nat)
    ensures MeaningLines(ms + [m], n) == MeaningLines(ms, n) + MeaningBlock(n + |ms|, m)
    decreases |ms|
  {
    if ms == [] {
      assert MeaningLines([m], n) == MeaningBlock(n, m) + MeaningLines([], n + 1);
    } else {
      assert (ms + [m])[1..] == ms[1..] + [m];
      MeaningLinesSnoc(ms[1..], m, n + 1);
    }
  }

  // ---- what the layout shows ----

  predicate IsHeader(l: Line) { l.Header? }
  predicate IsItem(l: Line) { l.Item? }
  predicate IsExample(l: Line) { l.Example? }

  /** The lines of `ls` that satisfy `keep`, in order. */
  function Select(ls: seq<Line>, keep: Line -> bool): seq<Line>
    decreases |ls|
  {
    if ls == [] then [] else (if keep(ls[0]) then [ls[0]] else []) + Select(ls[1..], keep)
  }

  lemma {:induction false} SelectAppend(a: seq<Line>, b: seq<Line>, keep: Line -> bool)
    ensures Select(a + b, keep) == Select(a, keep) + Select(b, keep)
    decreases |a|
  {
    if a == [] {
      assert a + b == b;
    } else {
      var c := a + b;
      assert c[0] == a[0];
      assert c[1..] == a[1..] + b;
      var h := if keep(a[0]) then [a[0]] else [];
      assert Select(c, keep) == h + Select(a[1..] + b, keep);
      SelectAppend(a[1..], b, keep);
      LinesAssociative(h, Select(a[1..], keep), Select(b, keep));
    }
  }

  lemma LinesAssociative(a: seq<Line>, b: seq<Line>, c: seq<Line>)
    ensures a + (b + c) == (a + b) + c
  {
  }

  lemma {:induction false} DefinitionLinesHaveNoHeader(ds: seq<Definition>, n: nat)
    ensures Select(DefinitionLines(ds, n), IsHeader) == []
    decreases |ds|
  {
    if ds != [] {
      var d := ds[0];
      SelectAppend(ItemLines(n, d), DefinitionLines(ds[1..], n + 1), IsHeader);
      DefinitionLinesHaveNoHeader(ds[1..], n + 1);
      SelectAppend([Item(n, d.definition)], if d.example != "" then [Example(d.example)] else [], IsHeader);
    }
  }

  /**
   * Exactly one header per meaning, in order, numbered `n`, `n+1`, ...
   * and carrying that meaning's part of speech.
   */
  lemma {:induction false} HeadersOfMeanings(ms: seq<Meaning>, n: nat)
    ensures |Select(MeaningLines(ms, n), IsHeader)| == |ms|
    ensures forall k :: 0 <= k < |ms| ==>
      Select(MeaningLines(ms, n), IsHeader)[k] == Header(n + k, ms[k].partOfSpeech)
    decreases |ms|
  {
    if ms != [] {
      var m := ms[0];
      var block := MeaningBlock(n, m);
      SelectAppend(block, MeaningLines(ms[1..], n + 1), IsHeader);
      SelectAppend([Header(n, m.partOfSpeech)] + DefinitionLines(m.definitions, 1), [Gap], IsHeader);
      SelectAppend([Header(n, m.partOfSpeech)], DefinitionLines(m.definitions, 1), IsHeader);
      DefinitionLinesHaveNoHeader(m.definitions, 1);
      assert Select(block, IsHeader) == [Header(n, m.partOfSpeech)];
      HeadersOfMeanings(ms[1..], n + 1);
    }
  }

  /** The formatted entry has one "i. pos" header per meaning, i running 1..n in order. */
  lemma HeadersNumberMeanings(e: WordEntry)
    ensures |Select(Layout(e), IsHeader)| == |e.meanings|
    ensures forall k :: 0 <= k < |e.meanings| ==>
      Select(Layout(e), IsHeader)[k] == Header(k + 1, e.meanings[k].partOfSpeech)
  {
    SelectAppend([Title(e.word, e.phonetic)], MeaningLines(e.meanings, 1), IsHeader);
    HeadersOfMeanings(e.meanings, 1);
  }

  /**
   * Within a meaning, exactly one item per definition, in order, numbered
   * `n`, `n+1`, ... and carrying that definition's text.
   */
  lemma {:induction false} ItemsOfDefinitions(ds: seq<Definition>, n: nat)
    ensures |Select(DefinitionLines(ds, n), IsItem)| == |ds|
    ensures forall k :: 0 <= k < |ds| ==>
      Select(DefinitionLines(ds, n), IsItem)[k] == Item(n + k, ds[k].definition)
    decreases |ds|
  {
    if ds != [] {
      var d := ds[0];
      SelectAppend(ItemLines(n, d), DefinitionLines(ds[1..], n + 1), IsItem);
      SelectAppend([Item(n, d.definition)], if d.example != "" then [Example(d.example)] else [], IsItem);
      ItemsOfDefinitions(ds[1..], n + 1);
    }
  }

  /** Under the `i`-th header, the definitions of that meaning are numbered 1..m in order. */
  lemma ItemsNumberDefinitions(n: nat, m: Meaning)
    ensures |Select(MeaningBlock(n, m), IsItem)| == |m.definitions|
    ensures forall k :: 0 <= k < |m.definitions| ==>
      Select(MeaningBlock(n, m), IsItem)[k] == Item(k + 1, m.definitions[k].definition)
  {
    var ds := m.definitions;
    SelectAppend([Header(n, m.partOfSpeech)] + DefinitionLines(ds, 1), [Gap], IsItem);
    SelectAppend([Header(n, m.partOfSpeech)], DefinitionLines(ds, 1), IsItem);
    ItemsOfDefinitions(ds, 1);
  }

  /** The definitions that have an example, in their order. */
  function WithExample(ds: seq<Definition>): (r: seq<Definition>)
    ensures forall k :: 0 <= k < |r| ==> r[k].example != ""
    decreases |ds|
  {
    if ds == [] then []
    else (if ds[0].example != "" then [ds[0]] else []) + WithExample(ds[1..])
  }

  /** `WithExample` keeps exactly the definitions whose example is non-empty. */
  lemma {:induction false} WithExampleMembers(ds: seq<Definition>, d: Definition)
    ensures d in WithExample(ds) <==> d in ds && d.example != ""
    decreases |ds|
  {
    if ds != [] {
      WithExampleMembers(ds[1..], d);
      assert ds == [ds[0]] + ds[1..];
    }
  }

  /**
   * The example lines of a run of definitions are exactly the examples of
   * the definitions that have one, in order; so no example line is empty.
   */
  lemma {:induction false} ExamplesOfDefinitions(ds: seq<Definition>, n: nat)
    ensures |Select(DefinitionLines(ds, n), IsExample)| == |WithExample(ds)|
    ensures forall k :: 0 <= k < |WithExample(ds)| ==>
      Select(DefinitionLines(ds, n), IsExample)[k] == Example(WithExample(ds)[k].example)
    decreases |ds|
  {
    if ds != [] {
      var d := ds[0];
      SelectAppend(ItemLines(n, d), DefinitionLines(ds[1..], n + 1), IsExample);
      SelectAppend([Item(n, d.definition)], if d.example != "" then [Example(d.example)] else [], IsExample);
      ExamplesOfDefinitions(ds[1..], n + 1);
    }
  }

  /**
   * Under each meaning, an example line appears exactly for the
   * definitions with a non-empty example, in order, and never empty.
   */
  lemma ExamplesOnlyWhenGiven(n: nat, m: Meaning)
    ensures |Select(MeaningBlock(n, m), IsExample)| == |WithExample(m.definitions)|
    ensures forall k :: 0 <= k < |WithExample(m.definitions)| ==>
      Select(MeaningBlock(n, m), IsExample)[k] == Example(WithExample(m.definitions)[k].example)
    ensures Example("") !in Select(MeaningBlock(n, m), IsExample)
  {
    var ds := m.definitions;
    SelectAppend([Header(n, m.partOfSpeech)] + DefinitionLines(ds, 1), [Gap], IsExample);
    SelectAppend([Header(n, m.partOfSpeech)], DefinitionLines(ds, 1), IsExample);
    ExamplesOfDefinitions(ds, 1);
  }

  /**
   * The text is the styled word, then the styled phonetic only when there
   * is one, then an empty line, then the meaning blocks.
   */
  lemma FormatStartsWithWord(st: Styles, e: WordEntry)
    ensures FormatText(st, e)
      == st.keyword(e.word) + (if e.phonetic != "" then " " + st.phonetic(e.phonetic) else "")
         + "\n\n" + Render(st, MeaningLines(e.meanings, 1))
  {
    var title := [Title(e.word, e.phonetic)];
    RenderAppend(st, title, MeaningLines(e.meanings, 1));
    assert Render(st, title) == RenderLine(st, title[0]) + Render(st, []);
  }

  // ---- reading a layout back ----

  /** Everything the formatted text shows of an entry. */
  datatype Outline = Outline(word: string, phonetic: string, meanings: seq<Meaning>)

  /**
   * Reads definitions numbered from `n` up to the empty line that closes
   * the meaning; gives them and the lines after that empty line.
   */
  function ParseDefinitions(ls: seq<Line>, n: nat): (r: Option<(seq<Definition>, seq<Line>)>)
    ensures r.Some? ==> |r.value.1| < |ls|
    decreases |ls|
  {
    if ls == [] then None
    else if ls[0].Gap? then Some(([], ls[1..]))
    else if ls[0].Item? && ls[0].number == n then
      var hasExample := |ls| > 1 && ls[1].Example?;
      var example := if hasExample then ls[1].text else "";
      var after := if hasExample then ls[2..] else ls[1..];
      match ParseDefinitions(after, n + 1)
      case None => None
      case Some((ds, rest)) => Some(([Definition(ls[0].text, example)] + ds, rest))
    else None
  }

  /** Reads meanings numbered from `n` on, to the end of the lines. */
  function ParseMeanings(ls: seq<Line>, n: nat): Option<seq<Meaning>>
    decreases |ls|
  {
    if ls == [] then Some([])
    else if ls[0].Header? && ls[0].number == n then
      match ParseDefinitions(ls[1..], 1)
      case None => None
      case Some((ds, rest)) =>
        match ParseMeanings(rest, n + 1)
        case None => None
        case Some(ms) => Some([Meaning(ls[0].partOfSpeech, ds)] + ms)
    else None
  }

  /** Reads an outline back from the lines of a formatted entry; `None` if they are not one. */
  function ParseLayout(ls: seq<Line>): Option<Outline> {
    if ls != [] && ls[0].Title? then
      match ParseMeanings(ls[1..], 1)
      case None => None
      case Some(ms) => Some(Outline(ls[0].word, ls[0].phonetic, ms))
    else None
  }

  lemma {:induction false} ParseDefinitionsRoundTrip(ds: seq<Definition>, n: nat, rest: seq<Line>)
    ensures ParseDefinitions(DefinitionLines(ds, n) + [Gap] + rest, n) == Some((ds, rest))
    decreases |ds|
  {
    var ls := DefinitionLines(ds, n) + [Gap] + rest;
    if ds == [] {
      assert ls == [Gap] + rest;
      assert ls[1..] == rest;
    } else {
      var d := ds[0];
      var tail := DefinitionLines(ds[1..], n + 1) + [Gap] + rest;
      assert ls == ItemLines(n, d) + tail;
      ParseDefinitionsRoundTrip(ds[1..], n + 1, rest);
      if d.example != "" {
        assert ls == [Item(n, d.definition), Example(d.example)] + tail;
        assert ls[2..] == tail;
      } else {
        assert ls == [Item(n, d.definition)] + tail;
        assert ls[1..] == tail;
        assert !tail[0].Example? by {
          if ds[1..] != [] {
            assert tail[0] == Item(n + 1, ds[1..][0].definition);
          }
        }
      }
      assert [d] + ds[1..] == ds;
    }
  }

  lemma {:induction false} ParseMeaningsRoundTrip(ms: seq<Meaning>, n: nat)
    ensures ParseMeanings(MeaningLines(ms, n), n) == Some(ms)
    decreases |ms|
  {
    if ms != [] {
      var m := ms[0];
      var rest := MeaningLines(ms[1..], n + 1);
      var ls := MeaningLines(ms, n);
      assert ls == [Header(n, m.partOfSpeech)] + (DefinitionLines(m.definitions, 1) + [Gap] + rest);
      assert ls[1..] == DefinitionLines(m.definitions, 1) + [Gap] + rest;
      ParseDefinitionsRoundTrip(m.definitions, 1, rest);
      ParseMeaningsRoundTrip(ms[1..], n + 1);
      assert [Meaning(m.partOfSpeech, m.definitions)] + ms[1..] == ms;
    }
  }

  /**
   * The layout loses nothing the formatter is meant to show: the word, the
   * phonetic and every meaning with its definitions and examples, in order,
   * can be read back from it, numbering included.
   */
  lemma LayoutRoundTrip(e: WordEntry)
    ensures ParseLayout(Layout(e)) == Some(Outline(e.word, e.phonetic, e.meanings))
  {
    assert Layout(e)[1..] == MeaningLines(e.meanings, 1);
    ParseMeaningsRoundTrip(e.meanings, 1);
  }
}
