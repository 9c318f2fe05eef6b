/**
 * Document ingestion (`load_pdfs_from_folder`): the non-blank page texts are kept stripped,
 * each is split into paragraphs at blank lines, and the paragraphs of one page are packed
 * greedily into chunks of about 500 characters.
 *
 * Reading the PDF files is not modelled: a folder is given as its files in glob order, each
 * file as the texts of the pages extracted from it before any read error.
 */
module Chunking {
  import opened Text

  /** A paragraph joins the current chunk only while the two lengths together stay below this. */
  const CHUNK_LIMIT := 500

  /** The page texts of all files, file after file. */
  function Pages(files: seq<seq<string>>): seq<string> {
    if files == [] then [] else Pages(files[..|files| - 1]) + Last(files)
  }

  /** The page texts that are not blank, each stripped, in page order. */
  function KeptTexts(pages: seq<string>): (kept: seq<string>)
    ensures |kept| <= |pages|
    ensures forall t :: t in kept ==> Trimmed(t)
  {
    if pages == [] then []
    else
      var text := Strip(Last(pages));
      KeptTexts(pages[..|pages| - 1]) + (if text != [] then [text] else [])
  }

  /** The stripped non-empty pieces, in order. */
  function NonBlankStripped(parts: seq<string>): (paras: seq<string>)
    ensures |paras| <= |parts|
    ensures forall p :: p in paras ==> Trimmed(p)
  {
    if parts == [] then []
    else
      var para := Strip(parts[0]);
      (if para != [] then [para] else []) + NonBlankStripped(parts[1..])
  }

  /** The paragraphs of a page: its blank-line separated pieces, stripped, empty ones dropped. */
  function Paragraphs(text: string): (paras: seq<string>)
    ensures forall p :: p in paras ==> Trimmed(p) && NoBlankLine(p)
  {
    var parts := SplitBlankLines(text);
    StrippedNoBlankLine(parts);
    NonBlankStripped(parts)
  }

  /** What one page text or one piece contributes: its strip, unless that is empty. */
  function StrippedPiece(part: string): seq<string> {
    var para := Strip(part);
    if para != [] then [para] else []
  }

  lemma NonBlankStrippedCons(part: string, rest: seq<string>)
    ensures NonBlankStripped([part] + rest) == StrippedPiece(part) + NonBlankStripped(rest)
  {
    assert ([part] + rest)[0] == part;
    assert ([part] + rest)[1..] == rest;
  }

  /** The paragraphs of the pieces are what each piece contributes, concatenated in order. */
  lemma {:induction false} NonBlankStrippedConcat(parts: seq<string>)
    ensures NonBlankStripped(parts) == ConcatMap(StrippedPiece, parts)
    decreases |parts|
  {
    if parts != [] {
      var rest := parts[1..];
      assert parts == [parts[0]] + rest;
      NonBlankStrippedCons(parts[0], rest);
      NonBlankStrippedConcat(rest);
      ConcatMapAppend(StrippedPiece, [parts[0]], rest);
      ConcatMapSnoc(StrippedPiece, [], parts[0]);
      assert [] + [parts[0]] == [parts[0]];
    }
  }

  /**
   * Piece `i` of the split text contributes its strip exactly when it is not all whitespace,
   * after the paragraphs of the earlier pieces and before those of the later ones.
   */
  lemma ParagraphsAt(text: string, i: nat)
    requires i < |SplitBlankLines(text)|
    ensures var parts := SplitBlankLines(text);
      Paragraphs(text) == NonBlankStripped(parts[..i])
        + (if AllSpace(parts[i]) then [] else [Strip(parts[i])])
        + NonBlankStripped(parts[i + 1..])
  {
    var parts := SplitBlankLines(text);
    assert Paragraphs(text) == NonBlankStripped(parts);
    SplitAround(parts, i);
    NonBlankStrippedAround(parts[..i], parts[i], parts[i + 1..]);
  }

  lemma NonBlankStrippedAround(before: seq<string>, part: string, after: seq<string>)
    ensures NonBlankStripped(before + [part] + after) ==
      NonBlankStripped(before) + StrippedPiece(part) + NonBlankStripped(after)
  {
    NonBlankStrippedConcat(before + [part] + after);
    NonBlankStrippedConcat(before);
    NonBlankStrippedConcat(after);
    ConcatMapAppend(StrippedPiece, before + [part], after);
    ConcatMapSnoc(StrippedPiece, before, part);
  }

  /** Paragraphs that are already stripped and non-empty are kept as they are. */
  lemma {:induction false} NonBlankStrippedTrimmed(paras: seq<string>)
    requires forall p :: p in paras ==> Trimmed(p)
    ensures NonBlankStripped(paras) == paras
    decreases |paras|
  {
    if paras != [] {
      assert paras[0] in paras;
      StripTrimmed(paras[0]);
      assert forall p :: p in paras[1..] ==> p in paras;
      NonBlankStrippedTrimmed(paras[1..]);
    }
  }

  /**
   * Paragraphs round trip: stripped paragraphs without blank lines, separated by blank lines,
   * are read back one for one.
   */
  lemma ParagraphsJoin(paras: seq<string>)
    requires paras != []
    requires forall p :: p in paras ==> Trimmed(p) && NoBlankLine(p)
    ensures Paragraphs(Join(paras, BLANK_LINE)) == paras
  {
    forall k | 0 <= k < |paras| - 1 ensures !EndsWithNewline(paras[k]) {
      assert paras[k] in paras;
      assert IsSpace('\n');
    }
    SplitJoin(paras);
    NonBlankStrippedTrimmed(paras);
  }

  lemma {:induction false} StrippedNoBlankLine(parts: seq<string>)
    requires forall p :: p in parts ==> NoBlankLine(p)
    ensures forall p :: p in NonBlankStripped(parts) ==> NoBlankLine(p)
    decreases |parts|
  {
    if parts != [] {
      assert parts[0] in parts;
      StripNoBlankLine(parts[0]);
      assert forall p :: p in parts[1..] ==> p in parts;
      StrippedNoBlankLine(parts[1..]);
    }
  }

  // ----- greedy packing of one page's paragraphs ----------------------------------------------

  function Flatten(groups: seq<seq<string>>): seq<string> {
    if groups == [] then [] else Flatten(groups[..|groups| - 1]) + Last(groups)
  }

  /** Emits the group being built, unless it is still empty. */
  function Close(done: seq<seq<string>>, current: seq<string>): seq<seq<string>> {
    if current == [] then done else done + [current]
  }

  /**
   * The packing loop over the remaining paragraphs, with the groups already emitted and the
   * group being built. A group stands for the chunk `Join(group, " ")`.
   */
  function PackFrom(done: seq<seq<string>>, current: seq<string>, rest: seq<string>): seq<seq<string>>
    decreases |rest|
  {
    if rest == [] then Close(done, current)
    else if |Join(current, " ")| + |rest[0]| < CHUNK_LIMIT then PackFrom(done, current + [rest[0]], rest[1..])
    else PackFrom(Close(done, current), [rest[0]], rest[1..])
  }

  /** Every paragraph after the first was added because it still fitted below the limit. */
  ghost predicate FitsGreedily(group: seq<string>) {
    forall j :: 1 <= j < |group| ==> |Join(group[..j], " ")| + |group[j]| < CHUNK_LIMIT
  }

  /** The next group was started because its first paragraph no longer fitted. */
  ghost predicate Overflows(group: seq<string>, next: seq<string>) {
    next != [] && |Join(group, " ")| + |next[0]| >= CHUNK_LIMIT
  }

  ghost predicate Packed(groups: seq<seq<string>>) {
    && (forall i :: 0 <= i < |groups| ==> groups[i] != [] && FitsGreedily(groups[i]))
    && (forall i :: 0 <= i < |groups| - 1 ==> Overflows(groups[i], groups[i + 1]))
  }

  /**
   * `groups` is the greedy packing of `paras`: the paragraphs in order, none lost or repeated,
   * each group as long as the limit allowed.
   */
  ghost predicate IsGreedyPacking(paras: seq<string>, groups: seq<seq<string>>) {
    Flatten(groups) == paras && Packed(groups)
  }

  /** The packing of one page's paragraphs. */
  function Pack(paras: seq<string>): seq<seq<string>> {
    PackFrom([], [], paras)
  }

  /** The packing is greedy: it keeps the paragraphs in order and fills each chunk while it can. */
  lemma PackGreedy(paras: seq<string>)
    ensures IsGreedyPacking(paras, Pack(paras))
  {
    PackFromGreedy([], [], paras);
  }

  lemma FitsGreedilyGrow(group: seq<string>, para: string)
    requires FitsGreedily(group)
    requires |Join(group, " ")| + |para| < CHUNK_LIMIT
    ensures FitsGreedily(group + [para])
  {
    var grown := group + [para];
    forall j | 1 <= j < |grown| ensures |Join(grown[..j], " ")| + |grown[j]| < CHUNK_LIMIT {
      assert grown[..j] == group[..j];
      if j == |group| {
        assert group[..j] == group;
      }
    }
  }

  lemma CloseGreedy(done: seq<seq<string>>, current: seq<string>)
    requires Packed(done) && FitsGreedily(current)
    requires done != [] && current != [] ==> Overflows(Last(done), current)
    ensures Packed(Close(done, current))
    ensures Flatten(Close(done, current)) == Flatten(done) + current
  {
    if current != [] {
      assert (done + [current])[..|done|] == done;
    }
  }

  lemma {:induction false} PackFromGreedy(done: seq<seq<string>>, current: seq<string>, rest: seq<string>)
    requires Packed(done) && FitsGreedily(current)
    requires current == [] ==> done == []
    requires done != [] ==> Overflows(Last(done), current)
    ensures IsGreedyPacking(Flatten(done) + current + rest, PackFrom(done, current, rest))
    decreases |rest|, 1
  {
    if rest == [] {
      CloseGreedy(done, current);
      assert Flatten(done) + current + rest == Flatten(done) + current;
    } else if |Join(current, " ")| + |rest[0]| < CHUNK_LIMIT {
      PackGrowGreedy(done, current, rest);
    } else {
      PackBreakGreedy(done, current, rest);
    }
  }

  /** The packing loop when the next paragraph fits the current group. */
  lemma {:induction false} PackGrowGreedy(done: seq<seq<string>>, current: seq<string>, rest: seq<string>)
    requires Packed(done) && FitsGreedily(current)
    requires current == [] ==> done == []
    requires done != [] ==> Overflows(Last(done), current)
    requires rest != [] && |Join(current, " ")| + |rest[0]| < CHUNK_LIMIT
    ensures IsGreedyPacking(Flatten(done) + current + rest, PackFrom(done, current, rest))
    decreases |rest|, 0
  {
    GrowReady(done, current, rest[0]);
    PackFromGreedy(done, current + [rest[0]], rest[1..]);
    Regroup(Flatten(done), current, rest);
  }

  /** The packing loop when the next paragraph does not fit the current group. */
  lemma {:induction false} PackBreakGreedy(done: seq<seq<string>>, current: seq<string>, rest: seq<string>)
    requires Packed(done) && FitsGreedily(current)
    requires current == [] ==> done == []
    requires done != [] ==> Overflows(Last(done), current)
    requires rest != [] && |Join(current, " ")| + |rest[0]| >= CHUNK_LIMIT
    ensures IsGreedyPacking(Flatten(done) + current + rest, PackFrom(done, current, rest))
    decreases |rest|, 0
  {
    BreakReady(done, current, rest[0]);
    PackFromGreedy(Close(done, current), [rest[0]], rest[1..]);
    Regroup(Flatten(done), current, rest);
  }

  lemma Regroup<T>(a: seq<T>, b: seq<T>, rest: seq<T>)
    requires rest != []
    ensures a + b + [rest[0]] + rest[1..] == a + b + rest
  {
    assert [rest[0]] + rest[1..] == rest;
  }

  /** A paragraph that fits joins the current group, and the loop's state stays greedy. */
  lemma GrowReady(done: seq<seq<string>>, current: seq<string>, para: string)
    requires FitsGreedily(current)
    requires done != [] ==> Overflows(Last(done), current)
    requires |Join(current, " ")| + |para| < CHUNK_LIMIT
    ensures FitsGreedily(current + [para])
    ensures done != [] ==> Overflows(Last(done), current + [para])
  {
    FitsGreedilyGrow(current, para);
    if current != [] {
      assert (current + [para])[0] == current[0];
    }
  }

  /** A paragraph that does not fit closes the current group and starts the next one. */
  lemma BreakReady(done: seq<seq<string>>, current: seq<string>, para: string)
    requires Packed(done) && FitsGreedily(current)
    requires current == [] ==> done == []
    requires done != [] ==> Overflows(Last(done), current)
    requires |Join(current, " ")| + |para| >= CHUNK_LIMIT
    ensures Packed(Close(done, current)) && FitsGreedily([para])
    ensures Close(done, current) != [] ==> Overflows(Last(Close(done, current)), [para])
    ensures Flatten(Close(done, current)) == Flatten(done) + current
  {
    CloseGreedy(done, current);
    if current != [] {
      assert Last(done + [current]) == current;
    }
  }

  /** A group of two or more paragraphs joins to at most 500 characters. */
  lemma MultiParagraphBound(group: seq<string>)
    requires FitsGreedily(group) && |group| >= 2
    ensures |Join(group, " ")| <= CHUNK_LIMIT
  {
    var j := |group| - 1;
    assert group == group[..j] + [group[j]];
    JoinAppend(group[..j], [group[j]], " ");
  }

  // ----- chunks ------------------------------------------------------------------------------

  /** The chunk text of each group. */
  function JoinEach(groups: seq<seq<string>>, sep: string): (chunks: seq<string>)
    ensures |chunks| == |groups|
    ensures forall i :: 0 <= i < |groups| ==> chunks[i] == Join(groups[i], sep)
  {
    if groups == [] then [] else JoinEach(groups[..|groups| - 1], sep) + [Join(Last(groups), sep)]
  }

  /** The chunks of one page text. */
  function PageChunks(text: string): seq<string> {
    JoinEach(Pack(Paragraphs(text)), " ")
  }

  /** The results of `f` on each text, concatenated in text order. */
  function ConcatMap(f: string -> seq<string>, texts: seq<string>): seq<string> {
    if texts == [] then [] else ConcatMap(f, texts[..|texts| - 1]) + f(Last(texts))
  }

  /** The chunks of the kept texts, page after page. */
  function ChunkTexts(texts: seq<string>): seq<string> {
    ConcatMap(PageChunks, texts)
  }

  /** What `load_pdfs_from_folder` returns for a folder. */
  function LoadedChunks(files: seq<seq<string>>): seq<string> {
    ChunkTexts(KeptTexts(Pages(files)))
  }

  /**
   * `load_pdfs_from_folder`: keep the non-blank page texts stripped, then pack the paragraphs
   * of each kept text into chunks, starting a new chunk at every text.
   */
  method LoadPdfsFromFolder(files: seq<seq<string>>) returns (chunks: seq<string>)
    ensures chunks == LoadedChunks(files)
  {
    if |files| == 0 {
      return [];
    }
    var allText := ExtractTexts(files);
    chunks := ChunkAllTexts(allText);
  }

  /** The first loop of `load_pdfs_from_folder`: collect the stripped non-blank page texts. */
  method ExtractTexts(files: seq<seq<string>>) returns (allText: seq<string>)
    ensures allText == KeptTexts(Pages(files))
  {
    allText := [];
    for f := 0 to |files|
      invariant allText == KeptTexts(Pages(files[..f]))
    {
      allText := AppendPageTexts(allText, files[f]);
      assert files[..f + 1] == files[..f] + [files[f]];
      PagesSnoc(files[..f], files[f]);
      KeptTextsAppend(Pages(files[..f]), files[f]);
    }
    assert files[..|files|] == files;
  }

  /** The pages of one file: append the stripped text of each non-blank page. */
  method AppendPageTexts(allText0: seq<string>, pages: seq<string>) returns (allText: seq<string>)
    ensures allText == allText0 + KeptTexts(pages)
  {
    allText := allText0;
    for p := 0 to |pages|
      invariant KeptSoFar(allText0, allText, pages, p)
    {
      KeptStep(allText0, allText, pages, p);
      var text := Strip(pages[p]);
      if text != [] {
        allText := allText + [text];
      }
    }
    assert pages[..|pages|] == pages;
  }

  /** The page loop after `p` pages: the texts kept from them are appended. */
  ghost predicate KeptSoFar(allText0: seq<string>, allText: seq<string>, pages: seq<string>, p: nat) {
    p <= |pages| && allText == allText0 + KeptTexts(pages[..p])
  }

  lemma KeptStep(allText0: seq<string>, allText: seq<string>, pages: seq<string>, p: nat)
    requires p < |pages| && KeptSoFar(allText0, allText, pages, p)
    ensures KeptSoFar(allText0, allText + StrippedPiece(pages[p]), pages, p + 1)
  {
    KeptTextsPrefix(pages, p);
  }

  lemma KeptTextsPrefix(pages: seq<string>, p: nat)
    requires p < |pages|
    ensures KeptTexts(pages[..p + 1]) ==
      KeptTexts(pages[..p]) + (if Strip(pages[p]) != [] then [Strip(pages[p])] else [])
  {
    assert pages[..p + 1] == pages[..p] + [pages[p]];
    KeptTextsSnoc(pages[..p], pages[p]);
  }

  lemma PagesSnoc(files: seq<seq<string>>, pages: seq<string>)
    ensures Pages(files + [pages]) == Pages(files) + pages
  {
    assert (files + [pages])[..|files|] == files;
  }

  /** The second loop of `load_pdfs_from_folder`: the chunks of every kept text, text after text. */
  method ChunkAllTexts(allText: seq<string>) returns (chunks: seq<string>)
    ensures chunks == ChunkTexts(allText)
  {
    chunks := [];
    for t := 0 to |allText|
      invariant chunks == ChunkTexts(allText[..t])
    {
      chunks := AppendTextChunks(chunks, allText[t]);
      ChunkTextsPrefix(allText, t);
    }
    assert allText[..|allText|] == allText;
  }

  /**
   * The body of the second loop of `load_pdfs_from_folder` for one text: pack its paragraphs greedily,
   * appending each finished chunk to `chunks0`.
   */
  method AppendTextChunks(chunks0: seq<string>, text: string) returns (chunks: seq<string>)
    ensures chunks == chunks0 + PageChunks(text)
  {
    chunks := chunks0;
    var paragraphs := SplitBlankLines(text);
    var currentChunk := "";
    ghost var target := Pack(Paragraphs(text));
    ghost var done: seq<seq<string>> := [];
    ghost var current: seq<string> := [];
    for i := 0 to |paragraphs|
      invariant PackInvariant(chunks0, chunks, currentChunk, done, current, NonBlankStripped(paragraphs[i..]), target)
    {
      var para := Strip(paragraphs[i]);
      NonBlankStrippedAt(paragraphs, i);
      if para == [] {
        continue;
      }
      PackStep(chunks0, chunks, currentChunk, done, current, para, NonBlankStripped(paragraphs[i + 1..]), target);
      if |currentChunk| + |para| < CHUNK_LIMIT {
        currentChunk := if currentChunk != [] then currentChunk + " " + para else para;
        current := current + [para];
      } else {
        if currentChunk != [] {
          chunks := chunks + [currentChunk];
          done := done + [current];
        }
        currentChunk := para;
        current := [para];
      }
    }
    if currentChunk != [] {
      JoinEachSnoc(done, current, " ");
      chunks := chunks + [currentChunk];
      done := done + [current];
    }
  }

  /**
   * The packing loop's invariant: the chunks emitted so far are those of the groups `done`,
   * `currentChunk` is the text of the group being built, and finishing the packing from here
   * gives the packing of the whole text.
   */
  ghost predicate PackInvariant(
    chunks0: seq<string>, chunks: seq<string>, currentChunk: string,
    done: seq<seq<string>>, current: seq<string>, rest: seq<string>, target: seq<seq<string>>)
  {
    && chunks == chunks0 + JoinEach(done, " ")
    && currentChunk == Join(current, " ")
    && (current == [] <==> currentChunk == [])
    && PackFrom(done, current, rest) == target
  }

  /** One turn of the packing loop on a non-empty paragraph keeps the invariant. */
  lemma PackStep(
    chunks0: seq<string>, chunks: seq<string>, currentChunk: string,
    done: seq<seq<string>>, current: seq<string>, para: string, rest: seq<string>, target: seq<seq<string>>)
    requires para != []
    requires PackInvariant(chunks0, chunks, currentChunk, done, current, [para] + rest, target)
    ensures |currentChunk| + |para| < CHUNK_LIMIT ==>
      PackInvariant(chunks0, chunks, if currentChunk != [] then currentChunk + " " + para else para,
        done, current + [para], rest, target)
    ensures |currentChunk| + |para| >= CHUNK_LIMIT ==>
      PackInvariant(chunks0, if currentChunk != [] then chunks + [currentChunk] else chunks, para,
        if currentChunk != [] then done + [current] else done, [para], rest, target)
  {
    PackFromStep(done, current, para, rest);
    GrowChunk(current, para);
    JoinEachSnoc(done, current, " ");
    assert Join([para], " ") == para;
  }

  /** The chunk text grows by a space and the paragraph, or starts with the paragraph. */
  lemma GrowChunk(current: seq<string>, para: string)
    ensures Join(current + [para], " ") ==
      if current != [] then Join(current, " ") + " " + para else para
  {
    if current != [] {
      JoinAppend(current, [para], " ");
    } else {
      assert current + [para] == [para];
    }
  }

  lemma JoinEachSnoc(groups: seq<seq<string>>, group: seq<string>, sep: string)
    ensures JoinEach(groups + [group], sep) == JoinEach(groups, sep) + [Join(group, sep)]
  {
    assert (groups + [group])[..|groups|] == groups;
  }

  /** The loop visits the pieces in order: piece `i` contributes its strip unless that is empty. */
  lemma NonBlankStrippedAt(parts: seq<string>, i: nat)
    requires i < |parts|
    ensures NonBlankStripped(parts[i..]) ==
      if Strip(parts[i]) != [] then [Strip(parts[i])] + NonBlankStripped(parts[i + 1..])
      else NonBlankStripped(parts[i + 1..])
  {
    assert parts[i..][1..] == parts[i + 1..];
  }

  /** One step of the packing loop on the next paragraph. */
  lemma PackFromStep(done: seq<seq<string>>, current: seq<string>, para: string, rest: seq<string>)
    ensures PackFrom(done, current, [para] + rest) ==
      if |Join(current, " ")| + |para| < CHUNK_LIMIT then PackFrom(done, current + [para], rest)
      else PackFrom(Close(done, current), [para], rest)
  {
    assert ([para] + rest)[1..] == rest;
  }

  // ----- what the chunks promise -------------------------------------------------------------

  lemma SplitAround<T>(xs: seq<T>, i: nat)
    requires i < |xs|
    ensures xs == xs[..i] + [xs[i]] + xs[i + 1..]
  {
  }

  lemma KeptTextsSnoc(pages: seq<string>, page: string)
    ensures KeptTexts(pages + [page]) == KeptTexts(pages) + (if Strip(page) != [] then [Strip(page)] else [])
  {
    assert (pages + [page])[..|pages|] == pages;
  }

  lemma ConcatMapSnoc(f: string -> seq<string>, texts: seq<string>, text: string)
    ensures ConcatMap(f, texts + [text]) == ConcatMap(f, texts) + f(text)
  {
    assert (texts + [text])[..|texts|] == texts;
  }

  lemma ChunkTextsPrefix(texts: seq<string>, t: nat)
    requires t < |texts|
    ensures ChunkTexts(texts[..t + 1]) == ChunkTexts(texts[..t]) + PageChunks(texts[t])
  {
    assert texts[..t + 1] == texts[..t] + [texts[t]];
    ChunkTextsSnoc(texts[..t], texts[t]);
  }

  lemma ChunkTextsSnoc(texts: seq<string>, text: string)
    ensures ChunkTexts(texts + [text]) == ChunkTexts(texts) + PageChunks(text)
  {
    ConcatMapSnoc(PageChunks, texts, text);
  }

  /** Kept texts distribute over concatenation of page lists: filtering keeps page order. */
  lemma {:induction false} KeptTextsAppend(a: seq<string>, b: seq<string>)
    ensures KeptTexts(a + b) == KeptTexts(a) + KeptTexts(b)
    decreases |b|
  {
    if b == [] {
      assert a + b == a;
    } else {
      var init := b[..|b| - 1];
      assert (a + b)[..|a + b| - 1] == a + init;
      assert Last(a + b) == Last(b);
      KeptTextsAppend(a, init);
    }
  }

  /**
   * Page `i` contributes its stripped text to the kept texts exactly when it is not blank,
   * between what the earlier and the later pages contribute.
   */
  lemma KeptTextAt(pages: seq<string>, i: nat)
    requires i < |pages|
    ensures KeptTexts(pages) ==
      KeptTexts(pages[..i]) + (if AllSpace(pages[i]) then [] else [Strip(pages[i])]) + KeptTexts(pages[i + 1..])
  {
    SplitAround(pages, i);
    KeptTextsAround(pages[..i], pages[i], pages[i + 1..]);
  }

  lemma KeptTextsAround(before: seq<string>, page: string, after: seq<string>)
    ensures KeptTexts(before + [page] + after) ==
      KeptTexts(before) + (if Strip(page) != [] then [Strip(page)] else []) + KeptTexts(after)
  {
    KeptTextsAppend(before + [page], after);
    KeptTextsSnoc(before, page);
  }

  lemma {:induction false} ConcatMapAppend(f: string -> seq<string>, a: seq<string>, b: seq<string>)
    ensures ConcatMap(f, a + b) == ConcatMap(f, a) + ConcatMap(f, b)
    decreases |b|
  {
    if b == [] {
      assert a + b == a;
    } else {
      var init := b[..|b| - 1];
      assert (a + b)[..|a + b| - 1] == a + init;
      assert Last(a + b) == Last(b);
      ConcatMapAppend(f, a, init);
    }
  }

  /** No chunk spans two texts: the chunks of text `i` sit between those of the others. */
  lemma ChunksPerText(texts: seq<string>, i: nat)
    requires i < |texts|
    ensures ChunkTexts(texts) == ChunkTexts(texts[..i]) + PageChunks(texts[i]) + ChunkTexts(texts[i + 1..])
  {
    SplitAround(texts, i);
    ChunkTextsAround(texts[..i], texts[i], texts[i + 1..]);
  }

  lemma ChunkTextsAround(before: seq<string>, text: string, after: seq<string>)
    ensures ChunkTexts(before + [text] + after) == ChunkTexts(before) + PageChunks(text) + ChunkTexts(after)
  {
    ConcatMapAppend(PageChunks, before + [text], after);
    ConcatMapSnoc(PageChunks, before, text);
  }

  /** Joining a page's chunks with spaces gives back its paragraphs joined with spaces. */
  lemma PageChunksRejoin(text: string)
    ensures Join(PageChunks(text), " ") == Join(Paragraphs(text), " ")
  {
    var groups := Pack(Paragraphs(text));
    PackGreedy(Paragraphs(text));
    JoinFlatten(groups, " ");
  }

  lemma {:induction false} JoinFlatten(groups: seq<seq<string>>, sep: string)
    requires forall i :: 0 <= i < |groups| ==> groups[i] != []
    ensures Join(JoinEach(groups, sep), sep) == Join(Flatten(groups), sep)
    decreases |groups|
  {
    if |groups| == 1 {
      assert groups[..0] == [];
      assert JoinEach(groups, sep) == [Join(groups[0], sep)];
      assert Flatten(groups) == groups[0];
    } else if |groups| > 1 {
      var init := groups[..|groups| - 1];
      var last := Last(groups);
      JoinFlatten(init, sep);
      assert Last(init) != [];
      JoinAppend(JoinEach(init, sep), [Join(last, sep)], sep);
      JoinAppend(Flatten(init), last, sep);
    }
  }

  /** Chunks joined from stripped paragraphs without blank lines are stripped and have none. */
  lemma {:induction false} JoinSpacedWellFormed(parts: seq<string>)
    requires parts != []
    requires forall p :: p in parts ==> Trimmed(p) && NoBlankLine(p)
    ensures Trimmed(Join(parts, " ")) && NoBlankLine(Join(parts, " "))
    decreases |parts|
  {
    var p := parts[0];
    assert p in parts && Last(parts) in parts;
    JoinEnds(parts, " ");
    if |parts| > 1 {
      assert forall q :: q in parts[1..] ==> q in parts;
      JoinSpacedWellFormed(parts[1..]);
      ConcatNoBlankLine(p, " ");
      ConcatNoBlankLine(p + " ", Join(parts[1..], " "));
    }
  }

  /** Every chunk of a page is non-empty, stripped, and free of blank lines. */
  lemma PageChunksWellFormed(text: string)
    ensures forall c :: c in PageChunks(text) ==> Trimmed(c) && NoBlankLine(c)
  {
    var paras := Paragraphs(text);
    var groups := Pack(paras);
    PackGreedy(paras);
    forall i | 0 <= i < |groups| ensures Trimmed(Join(groups[i], " ")) && NoBlankLine(Join(groups[i], " ")) {
      FlattenMember(groups, i);
      JoinSpacedWellFormed(groups[i]);
    }
  }

  /** Every paragraph of a group occurs in the flattened sequence. */
  lemma {:induction false} FlattenMember(groups: seq<seq<string>>, i: nat)
    requires i < |groups|
    ensures forall p :: p in groups[i] ==> p in Flatten(groups)
    decreases |groups|
  {
    if i < |groups| - 1 {
      FlattenMember(groups[..|groups| - 1], i);
    }
  }

  /**
   * A chunk of two or more paragraphs has at most 500 characters, so a longer chunk is a
   * single paragraph of the page.
   */
  lemma PageChunkSize(text: string, i: nat)
    requires i < |PageChunks(text)|
    ensures |Pack(Paragraphs(text))[i]| >= 2 ==> |PageChunks(text)[i]| <= CHUNK_LIMIT
    ensures |PageChunks(text)[i]| > CHUNK_LIMIT ==> PageChunks(text)[i] in Paragraphs(text)
  {
    var groups := Pack(Paragraphs(text));
    PackGreedy(Paragraphs(text));
    var group := groups[i];
    if |group| >= 2 {
      MultiParagraphBound(group);
    } else {
      FlattenMember(groups, i);
      assert group == [group[0]];
      assert group[0] in group;
    }
  }

  /** Every chunk loaded from a folder is non-empty, stripped and free of blank lines. */
  lemma {:induction false} LoadedChunksWellFormed(texts: seq<string>)
    ensures forall c :: c in ChunkTexts(texts) ==> Trimmed(c) && NoBlankLine(c)
    decreases |texts|
  {
    if texts != [] {
      var init := texts[..|texts| - 1];
      LoadedChunksWellFormed(init);
      PageChunksWellFormed(Last(texts));
      assert texts == init + [Last(texts)];
      ChunkTextsSnoc(init, Last(texts));
    }
  }
}
