/**
 * The configuration block kept inside an issue's description
 * (`PullRequestRepository.updateConfig` and `readConfig`). The serialized
 * configuration sits between two fixed markers; writing cuts out the old
 * block and appends a new one, reading takes the text after the start
 * marker. The serialized configuration is an opaque payload here, and the
 * description is a string in, string out.
 */
module PullRequestRepository {
  import opened Wrappers
  import opened Text

  /** The start marker after its opening `<`. */
  const StartTail: string := "!-- GIT-BOARD-CONFIG-START"
  /** `<!-- GIT-BOARD-CONFIG-START`. */
  const StartMarker: string := "<" + StartTail
  const EndMarker: string := "GIT-BOARD-CONFIG-END -->"

  /** The block written for a serialized configuration. */
  function ConfigBlock(payload: string): string {
    StartMarker + " \n" + payload + "\n" + EndMarker
  }

  /** Neither marker occurs in `s`. */
  ghost predicate NoMarkers(s: string) {
    Absent(s, StartMarker) && Absent(s, EndMarker)
  }

  /** `issue.body || ''`: a missing description reads as empty. */
  function CurrentDescription(body: Option<string>): string {
    body.GetOr("")
  }

  /** The outcome of `updateConfig`: the description it writes back, or no
      write at all. */
  datatype WriteOutcome = Written(body: string) | Refused

  /** `updateConfig` on the description `body` with the serialized
      configuration `payload`. It refuses exactly when one marker is present
      without the other, and every write ends with the new block. */
  function UpdateConfig(body: Option<string>, payload: string): (r: WriteOutcome)
    ensures r.Refused? <==> Contains(CurrentDescription(body), StartMarker) != Contains(CurrentDescription(body), EndMarker)
    ensures r.Written? ==> EndsWith(r.body, "\n\n" + ConfigBlock(payload))
  {
    var current := CurrentDescription(body);
    var block := ConfigBlock(payload);
    if !Contains(current, StartMarker) && !Contains(current, EndMarker) then
      EndsWithAppended(current, "\n\n" + block);
      assert current + "\n\n" + block == current + ("\n\n" + block);
      Written(current + "\n\n" + block)
    else if !Contains(current, StartMarker) || !Contains(current, EndMarker) then
      Refused
    else
      var storedConfig := SecondPiece(current, StartMarker);
      var stored := Before(storedConfig, EndMarker);
      var oldContent := StartMarker + stored + EndMarker;
      var kept := RemoveFirst(current, oldContent);
      EndsWithAppended(kept, "\n\n" + block);
      assert kept + "\n\n" + block == kept + ("\n\n" + block);
      Written(kept + "\n\n" + block)
  }

  /** `readConfig`: the text between the first start marker and the next end
      marker (or next start marker), before it is parsed. Nothing is read for
      issue -1 or when the start marker is missing; the text it returns never
      holds a marker. */
  function ReadConfig(issueNumber: int, body: Option<string>): (r: Option<string>)
    ensures r.Some? <==> issueNumber != -1 && Contains(CurrentDescription(body), StartMarker)
    ensures r.Some? ==> Absent(r.value, StartMarker) && Absent(r.value, EndMarker)
  {
    var current := CurrentDescription(body);
    if issueNumber == -1 || !Contains(current, StartMarker) then None
    else
      var piece := SecondPiece(current, StartMarker);
      var r := Before(piece, EndMarker);
      assert r + piece[|r|..] == piece;
      StartMarkerFacts();
      AbsentInParts(r, piece[|r|..], StartMarker);
      Some(r)
  }

  // Facts about the two marker literals.

  lemma StartMarkerFacts()
    ensures |StartMarker| == 27 && '\n' !in StartMarker
    ensures StartMarker[0] == '<'
  {
  }

  /** The start marker's first character occurs in it only once. */
  lemma StartMarkerLeadOnce()
    ensures '<' !in StartMarker[1..]
  {
    assert '<' !in StartTail;
    assert StartMarker[1..] == StartTail;
  }

  lemma EndMarkerFacts()
    ensures |EndMarker| == 24 && '\n' !in EndMarker && '<' !in EndMarker
  {
  }

  lemma StartLineFacts()
    ensures forall i :: 0 <= i < 5 ==> (StartMarker + " ")[i] != EndMarker[0]
    ensures (StartMarker + " ")[1] != StartMarker[0]
  {
  }

  lemma OccursPrefixOf(s: string, p: string, q: string, i: int)
    requires OccursAt(s, p + q, i)
    ensures OccursAt(s, p, i)
  {
    assert s[i..i + |p|] == s[i..i + |p| + |q|][..|p|];
  }

  /** The start marker occurs in `StartMarker + " "` only at its beginning,
      the end marker not at all. */
  lemma MarkersInStartLine(i: int)
    ensures OccursAt(StartMarker + " ", StartMarker, i) ==> i == 0
    ensures !OccursAt(StartMarker + " ", EndMarker, i)
  {
    StartMarkerFacts();
    EndMarkerFacts();
    StartLineFacts();
    var line := StartMarker + " ";
    if OccursAt(line, StartMarker, i) {
      OccursChars(line, StartMarker, i);
    }
    if OccursAt(line, EndMarker, i) {
      OccursChars(line, EndMarker, i);
    }
  }

  /** A start marker cannot begin inside an end marker. */
  lemma StartNotInEndThen(post: string)
    requires Absent(post, StartMarker)
    ensures Absent(EndMarker + post, StartMarker)
  {
    StartMarkerFacts();
    EndMarkerFacts();
    forall i | OccursAt(EndMarker + post, StartMarker, i) ensures false {
      OccursChars(EndMarker + post, StartMarker, i);
      if i >= |EndMarker| {
        assert (EndMarker + post)[i..i + |StartMarker|] == post[i - |EndMarker|..i - |EndMarker| + |StartMarker|];
        assert OccursAt(post, StartMarker, i - |EndMarker|);
      }
    }
  }

  // A description that ends with a freshly appended block.

  /** In `x + "\n\n" + ConfigBlock(p)`, with no marker in `x` or `p`, each
      marker occurs exactly once: the block's own. */
  lemma AppendedBlockMarkers(x: string, p: string)
    requires NoMarkers(x) && NoMarkers(p)
    ensures forall k :: OccursAt(x + "\n\n" + ConfigBlock(p), StartMarker, k) <==> k == |x| + 2
    ensures forall k :: OccursAt(x + "\n\n" + ConfigBlock(p), EndMarker, k) <==> k == |x| + 2 + |ConfigBlock(p)| - |EndMarker|
  {
    AppendedStartOnce(x, p);
    AppendedEndOnce(x, p);
  }

  /** The appended description, cut at its line breaks. */
  lemma AppendedLines(x: string, p: string)
    ensures x + "\n\n" + ConfigBlock(p) == x + "\n" + ("" + "\n" + ((StartMarker + " ") + "\n" + (p + "\n" + EndMarker)))
  {
    var t2 := (StartMarker + " ") + "\n" + (p + "\n" + EndMarker);
    assert ConfigBlock(p) == t2;
    assert "" + "\n" + t2 == "\n" + t2;
    assert x + "\n\n" + t2 == x + "\n" + ("\n" + t2);
  }

  lemma AppendedStartOnce(x: string, p: string)
    requires NoMarkers(x) && NoMarkers(p)
    ensures forall k :: OccursAt(x + "\n\n" + ConfigBlock(p), StartMarker, k) <==> k == |x| + 2
  {
    forall k ensures OccursAt(x + "\n\n" + ConfigBlock(p), StartMarker, k) <==> k == |x| + 2 {
      if OccursAt(x + "\n\n" + ConfigBlock(p), StartMarker, k) {
        StartOnlyAtBlock(x, p, k);
      }
      if k == |x| + 2 {
        MarkersAtBlock(x, p);
      }
    }
  }

  lemma AppendedEndOnce(x: string, p: string)
    requires NoMarkers(x) && NoMarkers(p)
    ensures forall k :: OccursAt(x + "\n\n" + ConfigBlock(p), EndMarker, k) <==> k == |x| + 2 + |ConfigBlock(p)| - |EndMarker|
  {
    forall k ensures OccursAt(x + "\n\n" + ConfigBlock(p), EndMarker, k) <==> k == |x| + 2 + |ConfigBlock(p)| - |EndMarker| {
      if OccursAt(x + "\n\n" + ConfigBlock(p), EndMarker, k) {
        EndOnlyAtBlock(x, p, k);
      }
      if k == |x| + 2 + |ConfigBlock(p)| - |EndMarker| {
        MarkersAtBlock(x, p);
      }
    }
  }

  /** The block's own markers are in place. */
  lemma MarkersAtBlock(x: string, p: string)
    ensures OccursAt(x + "\n\n" + ConfigBlock(p), StartMarker, |x| + 2)
    ensures OccursAt(x + "\n\n" + ConfigBlock(p), EndMarker, |x| + 2 + |ConfigBlock(p)| - |EndMarker|)
  {
    StartAtBlock(x + "\n\n", p);
    EndAtBlock(x + "\n\n", p);
  }

  lemma StartAtBlock(pre: string, p: string)
    ensures OccursAt(pre + ConfigBlock(p), StartMarker, |pre|)
  {
    var rest := " \n" + p + "\n" + EndMarker;
    assert ConfigBlock(p) == StartMarker + rest;
    assert pre + ConfigBlock(p) == pre + StartMarker + rest;
    AtJoin(pre, StartMarker, rest);
  }

  lemma EndAtBlock(pre: string, p: string)
    ensures OccursAt(pre + ConfigBlock(p), EndMarker, |pre| + |ConfigBlock(p)| - |EndMarker|)
  {
    var head := pre + (StartMarker + " \n" + p + "\n");
    assert pre + ConfigBlock(p) == head + EndMarker + "";
    AtJoin(head, EndMarker, "");
  }

  /** `p` occurs in `a + p + b` right after `a`. */
  lemma AtJoin(a: string, p: string, b: string)
    ensures OccursAt(a + p + b, p, |a|)
  {
    assert (a + p + b)[|a|..|a| + |p|] == p;
  }

  lemma {:induction false} StartOnlyAtBlock(x: string, p: string, k: int)
    requires NoMarkers(x) && NoMarkers(p)
    requires OccursAt(x + "\n\n" + ConfigBlock(p), StartMarker, k)
    ensures k == |x| + 2
  {
    StartMarkerFacts();
    var line := StartMarker + " ";
    var t3 := p + "\n" + EndMarker;
    var t2 := line + "\n" + t3;
    var t1 := "" + "\n" + t2;
    AppendedLines(x, p);
    OccursAroundSeparator(x, '\n', t1, StartMarker, k);
    OccursAroundSeparator("", '\n', t2, StartMarker, k - |x| - 1);
    OccursAroundSeparator(line, '\n', t3, StartMarker, k - |x| - 2);
    MarkersInStartLine(k - |x| - 2);
    if OccursAt(t3, StartMarker, k - |x| - 2 - |line| - 1) {
      OccursAroundSeparator(p, '\n', EndMarker, StartMarker, k - |x| - 2 - |line| - 1);
    }
  }

  lemma {:induction false} EndOnlyAtBlock(x: string, p: string, k: int)
    requires NoMarkers(x) && NoMarkers(p)
    requires OccursAt(x + "\n\n" + ConfigBlock(p), EndMarker, k)
    ensures k == |x| + 2 + |ConfigBlock(p)| - |EndMarker|
  {
    EndMarkerFacts();
    var line := StartMarker + " ";
    var t3 := p + "\n" + EndMarker;
    var t2 := line + "\n" + t3;
    var t1 := "" + "\n" + t2;
    AppendedLines(x, p);
    assert |ConfigBlock(p)| == |line| + 1 + |p| + 1 + |EndMarker|;
    OccursAroundSeparator(x, '\n', t1, EndMarker, k);
    OccursAroundSeparator("", '\n', t2, EndMarker, k - |x| - 1);
    OccursAroundSeparator(line, '\n', t3, EndMarker, k - |x| - 2);
    MarkersInStartLine(k - |x| - 2);
    OccursAroundSeparator(p, '\n', EndMarker, EndMarker, k - |x| - 2 - |line| - 1);
  }

  /** After the start marker of a block come its inner text, the end marker
      and whatever followed the block; the first end marker there is the
      block's own. */
  lemma {:induction false} InnerBeforeEnd(p: string, post: string)
    requires NoMarkers(p)
    ensures Before(" \n" + p + "\n" + EndMarker + post, EndMarker) == " \n" + p + "\n"
  {
    EndMarkerFacts();
    var inner := " \n" + p + "\n";
    var rest := inner + EndMarker + post;
    var r2 := EndMarker + post;
    var r1 := p + "\n" + r2;
    assert rest == " " + "\n" + r1;
    assert OccursAt(rest, EndMarker, |inner|) by {
      assert rest[|inner|..|inner| + |EndMarker|] == EndMarker;
    }
    forall j | 0 <= j < |inner| ensures !OccursAt(rest, EndMarker, j) {
      if OccursAt(rest, EndMarker, j) {
        OccursAroundSeparator(" ", '\n', r1, EndMarker, j);
        OccursAroundSeparator(p, '\n', r2, EndMarker, j - 2);
      }
    }
    BeforeAt(rest, EndMarker, |inner|);
    assert rest[..|inner|] == inner;
  }

  /** In a description that ends with a freshly appended block, the text
      after the first start marker is the rest of the block. */
  lemma {:induction false} AppendedSecondPiece(x: string, p: string)
    requires NoMarkers(x) && NoMarkers(p)
    ensures Contains(x + "\n\n" + ConfigBlock(p), StartMarker)
    ensures SecondPiece(x + "\n\n" + ConfigBlock(p), StartMarker) == " \n" + p + "\n" + EndMarker
  {
    BlankLineAfter(x);
    AbsentShort("", StartMarker);
    AbsentShort("", EndMarker);
    BlockSecondPiece(x + "\n\n", p, "");
    assert x + "\n\n" + ConfigBlock(p) + "" == x + "\n\n" + ConfigBlock(p);
    assert " \n" + p + "\n" + EndMarker + "" == " \n" + p + "\n" + EndMarker;
  }

  /** Reading a description that ends with a freshly appended block returns
      the block's inner text. */
  lemma {:induction false} ReadAppendedBlock(x: string, p: string, issueNumber: int)
    requires NoMarkers(x) && NoMarkers(p) && issueNumber != -1
    ensures ReadConfig(issueNumber, Some(x + "\n\n" + ConfigBlock(p))) == Some(" \n" + p + "\n")
  {
    AppendedSecondPiece(x, p);
    InnerBeforeEnd(p, "");
    assert " \n" + p + "\n" + EndMarker + "" == " \n" + p + "\n" + EndMarker;
  }

  // The three cases of a write.

  /** A description without markers gets the block appended after a blank
      line; reading it back returns the payload between the marker lines,
      and each marker then occurs exactly once. */
  lemma {:induction false} FirstWriteRoundTrip(body: string, payload: string, issueNumber: int)
    requires NoMarkers(body) && NoMarkers(payload) && issueNumber != -1
    ensures UpdateConfig(Some(body), payload) == Written(body + "\n\n" + ConfigBlock(payload))
    ensures ReadConfig(issueNumber, Some(UpdateConfig(Some(body), payload).body)) == Some(" \n" + payload + "\n")
    ensures forall k :: OccursAt(UpdateConfig(Some(body), payload).body, StartMarker, k) <==> k == |body| + 2
  {
    FirstWrite(body, payload);
    ReadAppendedBlock(body, payload, issueNumber);
    AppendedBlockMarkers(body, payload);
  }

  /** A description without markers gets the block appended after a blank
      line. */
  lemma FirstWrite(body: string, payload: string)
    requires NoMarkers(body)
    ensures UpdateConfig(Some(body), payload) == Written(body + "\n\n" + ConfigBlock(payload))
  {
    ContainsIff(body, StartMarker);
    ContainsIff(body, EndMarker);
  }

  /** A start marker after `pre` is the first one when `pre` holds none. */
  lemma {:induction false} FirstStartAfter(pre: string, tail: string)
    requires NoMarkers(pre) && |tail| >= |StartMarker| && tail[..|StartMarker|] == StartMarker
    ensures OccursAt(pre + tail, StartMarker, |pre|)
    ensures forall j :: 0 <= j < |pre| ==> !OccursAt(pre + tail, StartMarker, j)
  {
    StartMarkerFacts();
    StartMarkerLeadOnce();
    var body := pre + tail;
    assert body[|pre|..|pre| + |StartMarker|] == tail[..|StartMarker|];
    forall j | 0 <= j < |pre| ensures !OccursAt(body, StartMarker, j) {
      if OccursAt(body, StartMarker, j) {
        OccursBeforeLead(pre, tail, StartMarker, j);
      }
    }
  }

  /** The rest of a block, and whatever follows it, holds no start marker. */
  lemma {:induction false} BlockRestNoStart(stored: string, post: string)
    requires NoMarkers(post) && NoMarkers(stored)
    ensures Absent(" \n" + stored + "\n" + EndMarker + post, StartMarker)
  {
    StartMarkerFacts();
    var r2 := EndMarker + post;
    var r1 := stored + "\n" + r2;
    assert " \n" + stored + "\n" + EndMarker + post == " " + "\n" + r1;
    StartNotInEndThen(post);
    AbsentConcat(stored, r2, StartMarker, '\n');
    AbsentShort(" ", StartMarker);
    AbsentConcat(" ", r1, StartMarker, '\n');
  }

  /** In a description holding one well-formed block and no marker
      elsewhere, the first start marker is the block's, and no start marker
      follows it. */
  lemma {:induction false} BlockSecondPiece(pre: string, stored: string, post: string)
    requires NoMarkers(pre) && NoMarkers(post) && NoMarkers(stored)
    ensures Contains(pre + ConfigBlock(stored) + post, StartMarker)
    ensures SecondPiece(pre + ConfigBlock(stored) + post, StartMarker) == " \n" + stored + "\n" + EndMarker + post
  {
    var tail := ConfigBlock(stored) + post;
    var body := pre + tail;
    assert body == pre + ConfigBlock(stored) + post;
    assert tail == StartMarker + (" \n" + stored + "\n" + EndMarker + post);
    FirstStartAfter(pre, tail);
    BlockRestNoStart(stored, post);
    assert body[|pre| + |StartMarker|..] == " \n" + stored + "\n" + EndMarker + post;
    SecondPieceAt(body, StartMarker, |pre|);
  }

  /** The old block is cut out at its own place. */
  lemma {:induction false} BlockRemoved(pre: string, stored: string, post: string)
    requires NoMarkers(pre)
    ensures RemoveFirst(pre + ConfigBlock(stored) + post, ConfigBlock(stored)) == pre + post
  {
    var block := ConfigBlock(stored);
    var body := pre + block + post;
    var q := " \n" + stored + "\n" + EndMarker;
    assert block == StartMarker + q;
    assert OccursAt(body, block, |pre|) by {
      assert body[|pre|..|pre| + |block|] == block;
    }
    forall j | 0 <= j < |pre| ensures !OccursAt(body, block, j) {
      if OccursAt(body, block, j) {
        assert OccursAt(body, StartMarker + q, j);
        OccursPrefixOf(body, StartMarker, q, j);
        StartMarkerFacts();
        StartMarkerLeadOnce();
        OccursBeforeLead(pre, block + post, StartMarker, j);
      }
    }
    IndexOfIs(body, block, |pre|);
  }

  /** The write when both markers are present: `cut`, the text from the
      first start marker to the next end marker, markers included, is cut
      out. */
  lemma CutAndAppend(current: string, payload: string, cut: string)
    requires Contains(current, StartMarker) && Contains(current, EndMarker)
    requires cut == StartMarker + Before(SecondPiece(current, StartMarker), EndMarker) + EndMarker
    ensures UpdateConfig(Some(current), payload) == Written(RemoveFirst(current, cut) + "\n\n" + ConfigBlock(payload))
  {
  }

  /** In a description holding one well-formed block and no marker
      elsewhere, the text `updateConfig` cuts out is that block. */
  lemma {:induction false} BlockIsCut(pre: string, stored: string, post: string)
    requires NoMarkers(pre) && NoMarkers(post) && NoMarkers(stored)
    ensures Contains(pre + ConfigBlock(stored) + post, StartMarker)
    ensures StartMarker + Before(SecondPiece(pre + ConfigBlock(stored) + post, StartMarker), EndMarker) + EndMarker
            == ConfigBlock(stored)
  {
    BlockSecondPiece(pre, stored, post);
    InnerBeforeEnd(stored, post);
    BlockAround(stored);
  }

  /** A block is its start marker, its inner text and its end marker. */
  lemma BlockAround(stored: string)
    ensures StartMarker + (" \n" + stored + "\n") + EndMarker == ConfigBlock(stored)
  {
  }

  /** A description holding one well-formed block, and no marker elsewhere,
      has that block cut out and the new one appended. */
  lemma {:induction false} RewriteReplacesBlock(pre: string, stored: string, post: string, payload: string)
    requires NoMarkers(pre + post) && NoMarkers(stored)
    ensures UpdateConfig(Some(pre + ConfigBlock(stored) + post), payload)
            == Written(pre + post + "\n\n" + ConfigBlock(payload))
  {
    AbsentInParts(pre, post, StartMarker);
    AbsentInParts(pre, post, EndMarker);
    var block := ConfigBlock(stored);
    var body := pre + block + post;
    BlockIsCut(pre, stored, post);
    BlockRemoved(pre, stored, post);
    BlockHasEnd(pre, stored, post);
    CutAndAppend(body, payload, block);
  }

  lemma BlockHasEnd(pre: string, stored: string, post: string)
    ensures Contains(pre + ConfigBlock(stored) + post, EndMarker)
  {
    var body := pre + ConfigBlock(stored) + post;
    var endAt := |pre| + |ConfigBlock(stored)| - |EndMarker|;
    assert OccursAt(body, EndMarker, endAt) by {
      assert body[endAt..endAt + |EndMarker|] == EndMarker;
    }
    ContainsIff(body, EndMarker);
  }

  /** Rewriting a description that holds one well-formed block leaves one
      block, the new one: each marker occurs exactly once and reading returns
      the new payload. */
  lemma {:induction false} RewriteRoundTrip(pre: string, stored: string, post: string, payload: string, issueNumber: int)
    requires NoMarkers(pre + post) && NoMarkers(stored) && NoMarkers(payload) && issueNumber != -1
    ensures UpdateConfig(Some(pre + ConfigBlock(stored) + post), payload).Written?
    ensures ReadConfig(issueNumber, Some(UpdateConfig(Some(pre + ConfigBlock(stored) + post), payload).body))
            == Some(" \n" + payload + "\n")
    ensures forall k :: OccursAt(UpdateConfig(Some(pre + ConfigBlock(stored) + post), payload).body, StartMarker, k)
                        <==> k == |pre + post| + 2
    ensures forall k :: OccursAt(UpdateConfig(Some(pre + ConfigBlock(stored) + post), payload).body, EndMarker, k)
                        <==> k == |pre + post| + 2 + |ConfigBlock(payload)| - |EndMarker|
  {
    RewriteReplacesBlock(pre, stored, post, payload);
    ReadAppendedBlock(pre + post, payload, issueNumber);
    AppendedBlockMarkers(pre + post, payload);
  }

  /** Writing twice to a description without markers keeps a single block,
      the second one; each write adds a blank line before it. */
  lemma {:induction false} WriteTwice(body: string, first: string, second: string)
    requires NoMarkers(body) && NoMarkers(first) && NoMarkers(second)
    ensures UpdateConfig(Some(body), first).Written?
    ensures UpdateConfig(Some(UpdateConfig(Some(body), first).body), second)
            == Written(body + "\n\n" + "\n\n" + ConfigBlock(second))
  {
    FirstWrite(body, first);
    var pre := body + "\n\n";
    BlankLineAfter(body);
    assert pre + "" == pre;
    RewriteReplacesBlock(pre, first, "", second);
    assert pre + ConfigBlock(first) + "" == body + "\n\n" + ConfigBlock(first);
  }

  /** A blank line adds no marker. */
  lemma BlankLineAfter(body: string)
    requires NoMarkers(body)
    ensures NoMarkers(body + "\n\n")
  {
    AbsentShort("\n", StartMarker);
    AbsentShort("\n", EndMarker);
    StartMarkerFacts();
    EndMarkerFacts();
    AbsentConcat(body, "\n", StartMarker, '\n');
    AbsentConcat(body, "\n", EndMarker, '\n');
    assert body + ['\n'] + "\n" == body + "\n\n";
  }

  /** Reading does not look for the end marker: a start marker alone still
      yields everything after it (up to a second start marker). */
  lemma ReadIgnoresMissingEnd(body: string, issueNumber: int)
    requires Contains(body, StartMarker) && !Contains(body, EndMarker) && issueNumber != -1
    ensures ReadConfig(issueNumber, Some(body)) == Some(SecondPiece(body, StartMarker))
  {
    ContainsIff(body, EndMarker);
    var a := IndexOf(body, StartMarker) + |StartMarker|;
    var rest := body[a..];
    assert rest == body[a..|body|];
    AbsentInSlice(body, a, |body|, EndMarker);
    var piece := SecondPiece(body, StartMarker);
    assert rest[0..|piece|] == piece;
    AbsentInSlice(rest, 0, |piece|, EndMarker);
    BeforeAbsent(piece, EndMarker);
  }
}
