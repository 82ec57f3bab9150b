/**
 * `lorem_event_stream` in core/views.py: every paragraph is split into words with
 * Python's `str.split()`, each word becomes one `lorem` event whose id is its position
 * in the paragraph, and an `end` event closes the stream.
 */
module Lorem {
  import Decimal
  import opened Seqs

  /** The characters `str.isspace()` accepts, on which `str.split()` with no argument splits. */
  predicate IsSpace(c: char) {
    || c == ' '
    || '\t' <= c <= '\r'
    || '\U{1C}' <= c <= '\U{1F}'
    || c == '\U{85}'
    || c == '\U{A0}'
    || c == '\U{1680}'
    || '\U{2000}' <= c <= '\U{200A}'
    || c == '\U{2028}'
    || c == '\U{2029}'
    || c == '\U{202F}'
    || c == '\U{205F}'
    || c == '\U{3000}'
  }

  predicate NoSpace(s: string) {
    forall k | 0 <= k < |s| :: !IsSpace(s[k])
  }

  /** What `str.split()` yields: a non-empty run of non-space characters. */
  predicate IsWord(w: string) {
    |w| > 0 && NoSpace(w)
  }

  /** The word being read, if any. */
  function Flush(cur: string): seq<string> {
    if |cur| == 0 then [] else [cur]
  }

  /** The words of `s`, where `cur` holds the part of a word already read. */
  function Words(s: string, cur: string): (ws: seq<string>)
    requires NoSpace(cur)
    ensures forall i | 0 <= i < |ws| :: IsWord(ws[i])
    decreases |s|
  {
    if |s| == 0 then Flush(cur)
    else if IsSpace(s[0]) then Flush(cur) + Words(s[1..], [])
    else Words(s[1..], cur + [s[0]])
  }

  /** `s.split()`: the maximal runs of non-space characters, in order. */
  function Split(s: string): (ws: seq<string>)
    ensures forall i | 0 <= i < |ws| :: IsWord(ws[i])
  {
    Words(s, [])
  }

  /** The non-space characters of `s`, in order. */
  function NonSpace(s: string): (t: string)
    ensures NoSpace(t)
    decreases |s|
  {
    if |s| == 0 then [] else (if IsSpace(s[0]) then [] else [s[0]]) + NonSpace(s[1..])
  }

  /** The words joined with single spaces, as `" ".join(ws)` writes them. */
  function Join(ws: seq<string>): string
    decreases |ws|
  {
    if |ws| == 0 then []
    else if |ws| == 1 then ws[0]
    else ws[0] + " " + Join(ws[1..])
  }

  lemma {:induction false} WordsText(s: string, cur: string)
    requires NoSpace(cur)
    ensures Concat(Words(s, cur)) == cur + NonSpace(s)
    decreases |s|
  {
    if |s| > 0 {
      if IsSpace(s[0]) {
        WordsText(s[1..], []);
        ConcatAppend(Flush(cur), Words(s[1..], []));
      } else {
        WordsText(s[1..], cur + [s[0]]);
      }
    }
  }

  /** Splitting drops exactly the whitespace: the words hold every other character, in order. */
  lemma SplitKeepsText(s: string)
    ensures Concat(Split(s)) == NonSpace(s)
  {
    WordsText(s, []);
  }

  /** Reading a run without spaces only extends the current word. */
  lemma {:induction false} WordsRun(w: string, rest: string, cur: string)
    requires NoSpace(cur) && NoSpace(w)
    ensures Words(w + rest, cur) == Words(rest, cur + w)
    decreases |w|
  {
    if |w| > 0 {
      assert (w + rest)[0] == w[0];
      assert (w + rest)[1..] == w[1..] + rest;
      WordsRun(w[1..], rest, cur + [w[0]]);
      assert cur + [w[0]] + w[1..] == cur + w;
    } else {
      assert w + rest == rest;
      assert cur + w == cur;
    }
  }

  /** Splitting words joined by single spaces gives the words back. */
  lemma {:induction false} SplitJoin(ws: seq<string>)
    requires forall i | 0 <= i < |ws| :: IsWord(ws[i])
    ensures Split(Join(ws)) == ws
    decreases |ws|
  {
    if |ws| == 1 {
      WordsRun(ws[0], [], []);
      assert ws[0] + [] == ws[0];
      assert [] + ws[0] == ws[0];
    } else if |ws| > 1 {
      var rest := Join(ws[1..]);
      SplitJoin(ws[1..]);
      assert Join(ws) == ws[0] + (" " + rest);
      WordsRun(ws[0], " " + rest, []);
      assert [] + ws[0] == ws[0];
      assert (" " + rest)[1..] == rest;
      assert Words(" " + rest, ws[0]) == [ws[0]] + Words(rest, []);
      assert [ws[0]] + ws[1..] == ws;
    }
  }

  /** The three chunks of the `lorem` event for the word at position `id`. */
  function LoremEvent(id: nat, word: string): seq<string> {
    ["event: lorem\n", "id: " + Decimal.Show(id) + "\n", "data: " + word + "\n\n"]
  }

  const End: seq<string> := ["event: end\n", "data:\n\n"]

  /** The events of one paragraph's words; ids count from 0 within the paragraph. */
  function ParagraphEvents(words: seq<string>): (cs: seq<string>)
    ensures |cs| == 3 * |words|
    decreases |words|
  {
    if |words| == 0 then []
    else ParagraphEvents(words[..|words| - 1]) + LoremEvent(|words| - 1, words[|words| - 1])
  }

  /** The word at position `k` is the `k`-th event, and its id is `k`. */
  lemma {:induction false} ParagraphEventsAt(words: seq<string>)
    ensures var cs := ParagraphEvents(words);
            forall k | 0 <= k < |words| :: cs[3 * k .. 3 * k + 3] == LoremEvent(k, words[k])
    decreases |words|
  {
    if |words| > 0 {
      var n := |words| - 1;
      var init := words[..n];
      var prev := ParagraphEvents(init);
      var cs := ParagraphEvents(words);
      ParagraphEventsAt(init);
      assert cs == prev + LoremEvent(n, words[n]);
      forall k | 0 <= k < |words|
        ensures cs[3 * k .. 3 * k + 3] == LoremEvent(k, words[k])
      {
        if k < n {
          assert cs[3 * k .. 3 * k + 3] == prev[3 * k .. 3 * k + 3];
          assert init[k] == words[k];
        } else {
          assert cs[3 * k .. 3 * k + 3] == LoremEvent(n, words[n]);
        }
      }
    }
  }

  /** The events of one paragraph's words. */
  function EventsOf(paragraph: string): seq<string> {
    ParagraphEvents(Split(paragraph))
  }

  /** The events of all paragraphs, before the closing `end` event. */
  function Body(paragraphs: seq<string>): seq<string> {
    Concat(Map(EventsOf, paragraphs))
  }

  /** `lorem_event_stream` over the paragraphs the lorem generator returned. */
  function LoremStream(paragraphs: seq<string>): (cs: seq<string>)
    ensures |cs| >= 2 && cs[|cs| - 2..] == End
  {
    Body(paragraphs) + End
  }

  /** The body of a single paragraph is that paragraph's events. */
  lemma BodyOne(p: string)
    ensures Body([p]) == ParagraphEvents(Split(p))
  {
    assert Map(EventsOf, [p]) == [EventsOf(p)];
    ConcatOne(EventsOf(p));
  }

  /**
   * Each paragraph's events do not depend on the paragraphs before it: the ids restart
   * at 0 in every paragraph.
   */
  lemma BodyAppend(ps: seq<string>, qs: seq<string>)
    ensures Body(ps + qs) == Body(ps) + Body(qs)
  {
    MapAppend(EventsOf, ps, qs);
    ConcatAppend(Map(EventsOf, ps), Map(EventsOf, qs));
  }

  /** A single paragraph: one event per word with ids 0, 1, 2, ..., then `end`. */
  lemma OneParagraph(p: string)
    ensures var ws := Split(p);
            var cs := LoremStream([p]);
            && |cs| == 3 * |ws| + 2
            && (forall k | 0 <= k < |ws| :: cs[3 * k .. 3 * k + 3] == LoremEvent(k, ws[k]))
            && cs[3 * |ws|..] == End
  {
    var ws := Split(p);
    var cs := LoremStream([p]);
    BodyOne(p);
    assert cs == ParagraphEvents(ws) + End;
    ParagraphEventsAt(ws);
    forall k | 0 <= k < |ws|
      ensures cs[3 * k .. 3 * k + 3] == LoremEvent(k, ws[k])
    {
      assert cs[3 * k .. 3 * k + 3] == ParagraphEvents(ws)[3 * k .. 3 * k + 3];
    }
  }

  /** The stream of several paragraphs is their single-paragraph bodies in order, then `end`. */
  lemma ParagraphsInOrder(ps: seq<string>, p: string)
    ensures LoremStream(ps + [p]) == Body(ps) + ParagraphEvents(Split(p)) + End
  {
    BodyAppend(ps, [p]);
    BodyOne(p);
  }
}
