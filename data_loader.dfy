/**
 * data_loader.py: `load_and_chunk_pdf`. The PDF reader's documents and the
 * sentence splitter are inputs: `docs` is what the reader extracted, `split`
 * is `splitter.split_text`.
 */
module DataLoader {
  import opened Wrappers
  import opened Types
  import opened Strings

  /** A document as the reader returns it; its `text` attribute may be missing. */
  datatype Document = Document(text: Option<string>)

  /** `[d.text for d in docs if getattr(d, 'text', None)]`: the truthy texts, in document order. */
  function ExtractedTexts(docs: seq<Document>): (texts: seq<string>)
    ensures |texts| <= |docs|
    ensures forall k :: 0 <= k < |texts| ==> texts[k] != ""
  {
    if docs == [] then []
    else
      var last := docs[|docs| - 1].text;
      ExtractedTexts(docs[..|docs| - 1]) + (if last.Some? && last.value != "" then [last.value] else [])
  }

  /** A text is extracted exactly when some document carries it and it is non-empty. */
  lemma {:induction false} ExtractedTextsMembers(docs: seq<Document>, t: string)
    ensures t in ExtractedTexts(docs) <==> t != "" && exists i :: 0 <= i < |docs| && docs[i].text == Some(t)
  {
    if docs != [] {
      var init := docs[..|docs| - 1];
      ExtractedTextsMembers(init, t);
      assert forall i :: 0 <= i < |init| ==> init[i] == docs[i];
    }
  }

  /** The filter keeps document order: it works on each part of a split list separately. */
  lemma {:induction false} ExtractedTextsAppend(a: seq<Document>, b: seq<Document>)
    ensures ExtractedTexts(a + b) == ExtractedTexts(a) + ExtractedTexts(b)
    decreases |b|
  {
    if b == [] {
      assert a + b == a;
    } else {
      assert (a + b)[..|a + b| - 1] == a + b[..|b| - 1];
      ExtractedTextsAppend(a, b[..|b| - 1]);
    }
  }

  /** The splitter's outputs for each text, concatenated in order. */
  function ConcatSplits(texts: seq<string>, split: string -> seq<string>): seq<string> {
    if texts == [] then [] else ConcatSplits(texts[..|texts| - 1], split) + split(texts[|texts| - 1])
  }

  /** A chunk comes from splitting one of the texts, and every such chunk is kept. */
  lemma {:induction false} ConcatSplitsMembers(texts: seq<string>, split: string -> seq<string>, c: string)
    ensures c in ConcatSplits(texts, split) <==> exists k :: 0 <= k < |texts| && c in split(texts[k])
  {
    if texts != [] {
      var init := texts[..|texts| - 1];
      ConcatSplitsMembers(init, split, c);
      assert forall k :: 0 <= k < |init| ==> init[k] == texts[k];
    }
  }

  /** `load_and_chunk_pdf(path)`: refuses an extraction with no non-whitespace text, else chunks every text. */
  method LoadAndChunkPdf(path: string, docs: seq<Document>, split: string -> seq<string>) returns (r: Result<seq<string>, Error>)
    ensures r.Failure? <==> forall k :: 0 <= k < |ExtractedTexts(docs)| ==> Blank(ExtractedTexts(docs)[k])
    ensures r.Failure? ==> r.error == NoTextExtracted(path)
    ensures r.Success? ==> exists k :: 0 <= k < |ExtractedTexts(docs)| && !Blank(ExtractedTexts(docs)[k])
    ensures r.Success? ==> r.value == ConcatSplits(ExtractedTexts(docs), split)
  {
    var texts := ExtractedTexts(docs);
    if |texts| == 0 || forall k :: 0 <= k < |texts| ==> Blank(texts[k]) {
      return Failure(NoTextExtracted(path));
    }
    var chunks: seq<string> := [];
    for i := 0 to |texts|
      invariant chunks == ConcatSplits(texts[..i], split)
    {
      chunks := chunks + split(texts[i]);
      assert texts[..i + 1][..i] == texts[..i];
    }
    assert texts[..|texts|] == texts;
    r := Success(chunks);
  }
}
