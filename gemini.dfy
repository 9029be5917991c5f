/** The chat-assistant endpoint: the guard on the incoming query and the split
    of the model's reply into the main response and the suggested follow-up
    replies ("predictions"). The language model itself is an input: the text
    it generated, or the message of the error it raised. */
module Gemini {
  import opened Domain
  import Strings
  import Seqs

  const Marker := "Predictions:"
  const Preamble := "Here are four predictions for possible follow-up questions:"

  /** Drops one leading "- " list marker (the regex /^- /). */
  function StripListMarker(line: string): (r: string)
    ensures "- " <= line ==> line == "- " + r
    ensures !("- " <= line) ==> r == line
  {
    if "- " <= line then line[2..] else line
  }

  /** A reply line as it is offered: marker stripped first, then trimmed. */
  function CleanLine(line: string): (r: string)
    ensures Strings.IsTrimmed(r)
  {
    Strings.Trim(StripListMarker(line))
  }

  /** Every cleaned line is trimmed. */
  lemma CleanAllTrimmed(lines: seq<string>)
    ensures forall p :: p in CleanAll(lines) ==> Strings.IsTrimmed(p)
  {
    forall p | p in CleanAll(lines) ensures Strings.IsTrimmed(p) {
      var k :| 0 <= k < |lines| && CleanAll(lines)[k] == p;
    }
  }

  lemma CleanAllConcat(a: seq<string>, b: seq<string>)
    ensures CleanAll(a + b) == CleanAll(a) + CleanAll(b)
  {
  }

  predicate Kept(p: string) {
    |p| > 0 && p != Marker
  }

  /** Every line cleaned, one for one (the `.map` step). */
  function CleanAll(lines: seq<string>): (r: seq<string>)
    ensures |r| == |lines|
    ensures forall k :: 0 <= k < |lines| ==> r[k] == CleanLine(lines[k])
  {
    seq(|lines|, k requires 0 <= k < |lines| => CleanLine(lines[k]))
  }

  /** The cleaned lines that are neither empty nor the bare marker, in their
      original order (the `.filter` step). */
  function Survivors(lines: seq<string>): (r: seq<string>)
    ensures |r| <= |lines|
    ensures forall p :: p in r <==> p in CleanAll(lines) && Kept(p)
    ensures forall k :: 0 <= k < |r| ==> Kept(r[k]) && Strings.IsTrimmed(r[k])
  {
    CleanAllTrimmed(lines);
    Seqs.Filter(CleanAll(lines), Kept)
  }

  /** Survivors keeps the order of the lines: it distributes over concatenation. */
  lemma SurvivorsConcat(a: seq<string>, b: seq<string>)
    ensures Survivors(a + b) == Survivors(a) + Survivors(b)
  {
    CleanAllConcat(a, b);
    Seqs.FilterConcat(CleanAll(a), CleanAll(b), Kept);
  }

  /** The text the predictions are read from: everything from the first
      marker on, with the first preamble sentence removed, trimmed. */
  function PredictionsText(responseText: string): (t: string)
    requires Strings.Contains(responseText, Marker)
    ensures Strings.IsTrimmed(t)
    ensures var tail := responseText[Strings.IndexOf(responseText, Marker)..];
      !Strings.Contains(tail, Preamble) ==> t == Strings.Trim(tail)
  {
    var start := Strings.IndexOf(responseText, Marker);
    Strings.Trim(Strings.ReplaceFirst(responseText[start..], Preamble, ""))
  }

  function ExtractPredictions(responseText: string): (r: seq<string>)
    ensures !Strings.Contains(responseText, Marker) ==> r == []
    ensures forall k :: 0 <= k < |r| ==> |r[k]| > 0 && r[k] != Marker && Strings.IsTrimmed(r[k])
  {
    if !Strings.Contains(responseText, Marker) then []
    else Survivors(Strings.Split(PredictionsText(responseText), '\n'))
  }

  /** Whatever precedes the first marker has no influence on the predictions. */
  lemma PredictionsStartAtMarker(responseText: string)
    requires Strings.Contains(responseText, Marker)
    ensures var i := Strings.IndexOf(responseText, Marker);
      ExtractPredictions(responseText) == ExtractPredictions(responseText[i..])
  {
    var i := Strings.IndexOf(responseText, Marker);
    var t := responseText[i..];
    assert t[0..|Marker|] == responseText[i..i + |Marker|];
    assert Strings.OccursAt(t, Marker, 0);
    assert Strings.IndexOf(t, Marker) == 0;
    assert t[0..] == t;
  }

  /** The response shown to the user: the trimmed text before the first marker. */
  function MainResponse(responseText: string): (r: string)
    ensures !Strings.Contains(r, Marker)
    ensures Strings.IsTrimmed(r)
    ensures !Strings.Contains(responseText, Marker) ==> r == Strings.Trim(responseText)
    ensures Strings.Contains(responseText, Marker) ==>
              r == Strings.Trim(responseText[..Strings.IndexOf(responseText, Marker)])
  {
    var before := Strings.BeforeFirst(responseText, Marker);
    Strings.TrimKeepsAbsence(before, Marker);
    Strings.Trim(before)
  }

  /** The marker occurs first right after a text that does not contain it:
      no occurrence can start inside `pre` and run into the marker, because
      "P" appears in the marker only at its start. */
  lemma MarkerFirstAt(pre: string, rest: string)
    requires !Strings.Contains(pre, Marker) && Marker <= rest
    ensures Strings.IndexOf(pre + rest, Marker) == |pre|
  {
    var t := pre + rest;
    assert t[|pre|..|pre| + |Marker|] == rest[..|Marker|] == Marker;
    forall k | 0 <= k < |pre| ensures !Strings.OccursAt(t, Marker, k) {
      if k + |Marker| <= |pre| {
        assert t[k..k + |Marker|] == pre[k..k + |Marker|];
        assert !Strings.OccursAt(pre, Marker, k);
      } else {
        var j := |pre| - k;
        assert 0 < j < |Marker|;
        if k + |Marker| <= |t| {
          var w := t[k..k + |Marker|];
          assert w[j] == t[|pre|] == rest[0] == 'P';
          assert w != Marker by {
            assert Marker[j] != 'P';
          }
        }
      }
    }
    assert Strings.OccursAt(t, Marker, |pre|);
  }

  lemma Regroup(a: string, b: string, c: string)
    ensures a + b + c == a + (b + c)
  {
  }

  /** The main response is the trimmed text before the first marker. */
  lemma MainResponseBeforeMarker(pre: string, rest: string)
    requires !Strings.Contains(pre, Marker)
    ensures MainResponse(pre + Marker + rest) == Strings.Trim(pre)
  {
    Regroup(pre, Marker, rest);
    MarkerFirstAt(pre, Marker + rest);
    var t := pre + (Marker + rest);
    assert t[..|pre|] == pre;
  }

  /** The marker line itself never survives. */
  lemma MarkerLineDropped()
    ensures Survivors([Marker]) == []
  {
    assert Marker[0] == 'P';
    assert !("- " <= Marker);
    Strings.TrimmedIsFixed(Marker);
    assert CleanAll([Marker]) == [Marker];
  }

  /** The marker line followed by one follow-up per line. */
  function MarkerBlock(lines: seq<string>): string
    requires |lines| >= 1
  {
    Marker + "\n" + Strings.Join(lines, '\n')
  }

  lemma MarkerBlockStarts(lines: seq<string>)
    requires |lines| >= 1
    ensures Marker <= MarkerBlock(lines)
  {
    Regroup(Marker, "\n", Strings.Join(lines, '\n'));
  }

  /** Without a preamble after the marker, and nothing to trim, the text
      the predictions are read from is the reply from the marker on. */
  lemma PredictionsTextFromMarker(pre: string, block: string)
    requires !Strings.Contains(pre, Marker) && Marker <= block
    requires !Strings.Contains(block, Preamble) && Strings.IsTrimmed(block)
    ensures Strings.Contains(pre + block, Marker) && PredictionsText(pre + block) == block
  {
    MarkerFirstAt(pre, block);
    assert (pre + block)[|pre|..] == block;
    Strings.TrimmedIsFixed(block);
  }

  /** Splitting the marker block gives the marker line, then the lines. */
  lemma SplitMarkerLine(lines: seq<string>)
    requires |lines| >= 1 && forall k :: 0 <= k < |lines| ==> '\n' !in lines[k]
    ensures Strings.Split(MarkerBlock(lines), '\n') == [Marker] + lines
  {
    assert '\n' !in Marker;
    Strings.SplitAfterPiece(Marker, Strings.Join(lines, '\n'), '\n');
    Strings.SplitJoin(lines, '\n');
  }

  /** The predictions are the survivors of the split prediction text. */
  lemma ExtractVia(t: string, text: string)
    requires Strings.Contains(t, Marker) && PredictionsText(t) == text
    ensures ExtractPredictions(t) == Survivors(Strings.Split(text, '\n'))
  {
  }

  lemma SurvivorsAfterMarker(lines: seq<string>)
    ensures Survivors([Marker] + lines) == Survivors(lines)
  {
    SurvivorsConcat([Marker], lines);
    MarkerLineDropped();
    assert [] + Survivors(lines) == Survivors(lines);
  }

  /** The predictions of a reply that lists its follow-ups one per line after
      the marker line are the lines that survive cleaning, in their order. */
  lemma ExtractPredictionsOfLines(pre: string, lines: seq<string>)
    requires |lines| >= 1 && forall k :: 0 <= k < |lines| ==> '\n' !in lines[k]
    requires !Strings.Contains(pre, Marker)
    requires !Strings.Contains(MarkerBlock(lines), Preamble) && Strings.IsTrimmed(MarkerBlock(lines))
    ensures ExtractPredictions(pre + MarkerBlock(lines)) == Survivors(lines)
  {
    var block := MarkerBlock(lines);
    MarkerBlockStarts(lines);
    PredictionsTextFromMarker(pre, block);
    ExtractVia(pre + block, block);
    SplitMarkerLine(lines);
    SurvivorsAfterMarker(lines);
  }

  /** Only one "- " is stripped, and it is stripped before trimming, so an
      indented marker stays. */
  lemma StripsOneMarkerOnly()
    ensures CleanLine("- - a") == "- a"
    ensures CleanLine(" - a") == "- a"
  {
    assert "- " <= "- - a";
    assert StripListMarker("- - a") == "- a";
    assert Strings.LeadingSpace("- a") == 0;
    assert Strings.TrailingSpace("- a") == 0;
    assert !("- " <= " - a");
    assert Strings.LeadingSpace(" - a") == 1 by {
      assert Strings.LeadingSpace(" - a"[1..]) == 0;
    }
  }

  /** The preamble is removed once: a second copy of it stays in the text. */
  lemma PreambleRemovedOnce(tail: string)
    ensures Strings.ReplaceFirst(Preamble + Preamble + tail, Preamble, "") == Preamble + tail
  {
    var s := Preamble + Preamble + tail;
    assert Strings.OccursAt(s, Preamble, 0);
    assert Strings.IndexOf(s, Preamble) == 0;
    assert s[|Preamble|..] == Preamble + tail;
  }

  datatype Generation = Generated(text: string) | GenerationFailed(message: string)

  datatype Reply = Answer(response: string, predictions: seq<string>) | Error(status: int, error: string)

  /** POST handler. `hasApiKey` says whether the server is configured with a
      key; `generation` is what the model call produced. */
  function HandlePost(query: Field<string>, hasApiKey: bool, generation: Generation): (r: Reply)
    ensures FalsyText(query) ==> r == Error(400, "Please provide a valid question or description")
    ensures !FalsyText(query) && !hasApiKey ==> r == Error(500, "Server configuration error")
    ensures r.Answer? ==> generation.Generated? && r.response == MainResponse(generation.text)
                          && r.predictions == ExtractPredictions(generation.text)
    ensures !FalsyText(query) && hasApiKey && generation.Generated? ==> r.Answer?
    ensures !FalsyText(query) && hasApiKey && generation.GenerationFailed? ==>
              r == Error(500, "AI API error: " + generation.message)
  {
    if FalsyText(query) then Error(400, "Please provide a valid question or description")
    else if !hasApiKey then Error(500, "Server configuration error")
    else match generation
      case Generated(text) => Answer(MainResponse(text), ExtractPredictions(text))
      case GenerationFailed(message) => Error(500, "AI API error: " + message)
  }

  /** An empty query is refused before the model is consulted: the answer does
      not depend on what the model would have produced. */
  lemma EmptyQueryIgnoresModel(query: Field<string>, k1: bool, k2: bool, g1: Generation, g2: Generation)
    requires FalsyText(query)
    ensures HandlePost(query, k1, g1) == HandlePost(query, k2, g2)
  {
  }
}
