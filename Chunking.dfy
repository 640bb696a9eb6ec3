/**
 * `chunk_message`: splitting a reply into pieces that fit Telegram's message
 * limit. Each pass cuts before the last paragraph break, else the last line
 * break, else the last space within the limit, else hard at the limit, and then
 * drops the newlines at the head of the remainder.
 *
 * The functions below take `spaceFrom`, the first index at which a space may
 * be chosen as the cut. The code as written searches from 0 (`spaceFrom == 0`);
 * then a remainder that starts with its only space in range is cut at 0 and the
 * loop never ends (see `SpaceCutSpins`). The corrected chunker searches from 1.
 */
module Chunking {
  import opened Text

  /** `MAX_TELEGRAM_MESSAGE_LENGTH`, the default `limit`. */
  const TelegramLimit: nat := 4096

  predicate AllNewlines(s: string) {
    forall i :: 0 <= i < |s| ==> s[i] == '\n'
  }

  /** Where one pass cuts a text longer than `limit`. */
  function Cut(t: string, limit: nat, spaceFrom: nat): (cut: nat)
    requires limit < |t|
    ensures cut <= limit
  {
    var para := RFind(t, "\n\n", 0, limit);
    var line := RFind(t, "\n", 0, limit);
    var space := RFind(t, " ", spaceFrom, limit);
    if para != -1 then para else if line != -1 then line else if space != -1 then space else limit
  }

  /**
   * A cut before the limit is at a newline or at a space at or after `spaceFrom`;
   * a cut at the limit happens only when there is neither in range.
   */
  lemma CutAtBreak(t: string, limit: nat, spaceFrom: nat)
    requires limit < |t|
    ensures var cut := Cut(t, limit, spaceFrom);
      cut < limit ==> t[cut] == '\n' || (spaceFrom <= cut && t[cut] == ' ')
    ensures Cut(t, limit, spaceFrom) == limit ==>
      forall i :: 0 <= i < limit ==> t[i] != '\n' && (spaceFrom <= i ==> t[i] != ' ')
  {
    var para := RFind(t, "\n\n", 0, limit);
    var line := RFind(t, "\n", 0, limit);
    var space := RFind(t, " ", spaceFrom, limit);
    if para != -1 {
      RFindHit(t, "\n\n", 0, limit);
    } else if line != -1 {
      RFindHit(t, "\n", 0, limit);
    } else if space != -1 {
      RFindHit(t, " ", spaceFrom, limit);
    } else {
      RFindNone(t, '\n', 0, limit);
      RFindNone(t, ' ', spaceFrom, limit);
    }
  }

  /** `text[cut:].lstrip("\n")`: what the next pass starts from. */
  function Rest(t: string, limit: nat, spaceFrom: nat): (r: string)
    requires limit < |t|
    ensures |r| <= |t| - Cut(t, limit, spaceFrom)
    ensures r == "" || r[0] != '\n'
    ensures t[Cut(t, limit, spaceFrom)] != '\n' ==> r == t[Cut(t, limit, spaceFrom)..]
  {
    LStripChar(t[Cut(t, limit, spaceFrom)..], '\n')
  }

  /** The remainder is a suffix of the text, and everything between the cut and it is a newline. */
  lemma RestSuffix(t: string, limit: nat, spaceFrom: nat)
    requires limit < |t|
    ensures var r := Rest(t, limit, spaceFrom);
      r == t[|t| - |r|..] && forall i :: Cut(t, limit, spaceFrom) <= i < |t| - |r| ==> t[i] == '\n'
  {
    var c := Cut(t, limit, spaceFrom);
    var s := t[c..];
    var r := LStripChar(s, '\n');
    assert s[|s| - |r|..] == t[|t| - |r|..];
    forall i | c <= i < |t| - |r| ensures t[i] == '\n' {
      assert t[i] == s[i - c];
    }
  }

  /** A character absent from the text is absent from the remainder. */
  lemma RestKeepsOut(t: string, limit: nat, spaceFrom: nat, c: char)
    requires limit < |t|
    requires c !in t
    ensures c !in Rest(t, limit, spaceFrom)
  {
    var r := Rest(t, limit, spaceFrom);
    RestSuffix(t, limit, spaceFrom);
    forall i | 0 <= i < |r| ensures r[i] != c {
      assert r[i] == t[|t| - |r| + i];
    }
  }

  /** The newlines a pass drops between the chunk it emits and the remainder. */
  function Dropped(t: string, limit: nat, spaceFrom: nat): (d: string)
    requires limit < |t|
    ensures AllNewlines(d)
    ensures t == t[..Cut(t, limit, spaceFrom)] + d + Rest(t, limit, spaceFrom)
  {
    var c := Cut(t, limit, spaceFrom);
    var r := Rest(t, limit, spaceFrom);
    RestSuffix(t, limit, spaceFrom);
    var d := t[c..|t| - |r|];
    assert AllNewlines(d) by {
      forall i | 0 <= i < |d| ensures d[i] == '\n' {
        assert d[i] == t[c + i];
      }
    }
    SplitThree(t, c, |t| - |r|);
    d
  }

  /** A pass shortens the text exactly when it cuts after index 0 or the text starts with a newline. */
  lemma StepProgress(t: string, limit: nat, spaceFrom: nat)
    requires limit < |t|
    ensures |Rest(t, limit, spaceFrom)| < |t| <==> Cut(t, limit, spaceFrom) > 0 || t[0] == '\n'
  {
  }

  /** The `while text:` loop, started from `t`, ends. */
  predicate Terminates(t: string, limit: nat, spaceFrom: nat)
    decreases |t|
  {
    |t| <= limit
    || (|Rest(t, limit, spaceFrom)| < |t| && Terminates(Rest(t, limit, spaceFrom), limit, spaceFrom))
  }

  /** What the loop appends to `chunks`, started from `t`. */
  function Pieces(t: string, limit: nat, spaceFrom: nat): seq<string>
    requires Terminates(t, limit, spaceFrom)
    decreases |t|
  {
    if t == "" then []
    else if |t| <= limit then [t]
    else [t[..Cut(t, limit, spaceFrom)]] + Pieces(Rest(t, limit, spaceFrom), limit, spaceFrom)
  }

  /** The newline run dropped after each piece (empty after the last). */
  function Gaps(t: string, limit: nat, spaceFrom: nat): seq<string>
    requires Terminates(t, limit, spaceFrom)
    decreases |t|
  {
    if t == "" then []
    else if |t| <= limit then [""]
    else [Dropped(t, limit, spaceFrom)] + Gaps(Rest(t, limit, spaceFrom), limit, spaceFrom)
  }

  /** The result of `chunk_message(text, limit)`. */
  function Chunks(text: string, limit: nat, spaceFrom: nat): seq<string>
    requires Terminates(text, limit, spaceFrom)
  {
    if |text| <= limit then [text] else Pieces(text, limit, spaceFrom)
  }

  function ChunkGaps(text: string, limit: nat, spaceFrom: nat): seq<string>
    requires Terminates(text, limit, spaceFrom)
  {
    if |text| <= limit then [""] else Gaps(text, limit, spaceFrom)
  }

  /** `chunks[0] + gaps[0] + chunks[1] + gaps[1] + ...`. */
  function Interleave(chunks: seq<string>, gaps: seq<string>): string
    requires |chunks| == |gaps|
    decreases |chunks|
  {
    if chunks == [] then "" else chunks[0] + gaps[0] + Interleave(chunks[1..], gaps[1..])
  }

  /** One pass of the loop on a text longer than the limit. */
  lemma PiecesStep(t: string, limit: nat, spaceFrom: nat)
    requires Terminates(t, limit, spaceFrom) && limit < |t|
    ensures Terminates(Rest(t, limit, spaceFrom), limit, spaceFrom)
    ensures Pieces(t, limit, spaceFrom) == [t[..Cut(t, limit, spaceFrom)]] + Pieces(Rest(t, limit, spaceFrom), limit, spaceFrom)
  {
  }

  lemma {:induction false} PiecesBounded(t: string, limit: nat, spaceFrom: nat)
    requires Terminates(t, limit, spaceFrom)
    ensures forall i :: 0 <= i < |Pieces(t, limit, spaceFrom)| ==> |Pieces(t, limit, spaceFrom)[i]| <= limit
    decreases |t|
  {
    if |t| > limit {
      PiecesStep(t, limit, spaceFrom);
      PiecesBounded(Rest(t, limit, spaceFrom), limit, spaceFrom);
    }
  }

  /** Every chunk fits the limit, and a text that already fits is the single chunk. */
  lemma ChunksBounded(text: string, limit: nat, spaceFrom: nat)
    requires Terminates(text, limit, spaceFrom)
    ensures forall i :: 0 <= i < |Chunks(text, limit, spaceFrom)| ==> |Chunks(text, limit, spaceFrom)[i]| <= limit
    ensures |text| <= limit ==> Chunks(text, limit, spaceFrom) == [text]
  {
    PiecesBounded(text, limit, spaceFrom);
  }

  lemma {:induction false} PiecesReassemble(t: string, limit: nat, spaceFrom: nat)
    requires Terminates(t, limit, spaceFrom)
    ensures |Gaps(t, limit, spaceFrom)| == |Pieces(t, limit, spaceFrom)|
    ensures Interleave(Pieces(t, limit, spaceFrom), Gaps(t, limit, spaceFrom)) == t
    ensures forall i :: 0 <= i < |Gaps(t, limit, spaceFrom)| ==> AllNewlines(Gaps(t, limit, spaceFrom)[i])
    decreases |t|
  {
    if t != "" && |t| > limit {
      var r := Rest(t, limit, spaceFrom);
      PiecesReassemble(r, limit, spaceFrom);
      var ps, gs := Pieces(t, limit, spaceFrom), Gaps(t, limit, spaceFrom);
      assert ps[1..] == Pieces(r, limit, spaceFrom) && gs[1..] == Gaps(r, limit, spaceFrom);
      assert Interleave(ps, gs) == ps[0] + gs[0] + r;
    }
  }

  /**
   * Nothing is lost: re-inserting the dropped newline runs between the chunks
   * gives back the text. Spaces are never dropped; a space cut leaves the space
   * at the head of the next chunk (`Rest`).
   */
  lemma ChunksReassemble(text: string, limit: nat, spaceFrom: nat)
    requires Terminates(text, limit, spaceFrom)
    ensures |ChunkGaps(text, limit, spaceFrom)| == |Chunks(text, limit, spaceFrom)|
    ensures Interleave(Chunks(text, limit, spaceFrom), ChunkGaps(text, limit, spaceFrom)) == text
    ensures forall i :: 0 <= i < |ChunkGaps(text, limit, spaceFrom)| ==> AllNewlines(ChunkGaps(text, limit, spaceFrom)[i])
  {
    if |text| > limit {
      PiecesReassemble(text, limit, spaceFrom);
    } else {
      assert Interleave([text], [""]) == text + "" + "";
    }
  }

  lemma {:induction false} PiecesNonEmpty(t: string, limit: nat, spaceFrom: nat)
    requires Terminates(t, limit, spaceFrom)
    requires t == "" || t[0] != '\n'
    ensures forall i :: 0 <= i < |Pieces(t, limit, spaceFrom)| ==> Pieces(t, limit, spaceFrom)[i] != ""
    decreases |t|
  {
    if |t| > limit {
      StepProgress(t, limit, spaceFrom);
      PiecesNonEmpty(Rest(t, limit, spaceFrom), limit, spaceFrom);
    }
  }

  /**
   * Only the first chunk can be empty (a text of at most `limit` characters that
   * is empty, or a long text that starts with a paragraph or line break).
   */
  lemma OnlyFirstChunkMayBeEmpty(text: string, limit: nat, spaceFrom: nat)
    requires Terminates(text, limit, spaceFrom)
    ensures forall i :: 1 <= i < |Chunks(text, limit, spaceFrom)| ==> Chunks(text, limit, spaceFrom)[i] != ""
  {
    if |text| > limit {
      var r := Rest(text, limit, spaceFrom);
      PiecesNonEmpty(r, limit, spaceFrom);
      assert Chunks(text, limit, spaceFrom)[1..] == Pieces(r, limit, spaceFrom);
    }
  }

  /**
   * With no newline before the limit, a pass cuts at the last space in range,
   * at index `k`, and the next pass starts at that space.
   */
  lemma CutAtLastSpace(t: string, limit: nat, spaceFrom: nat, k: nat)
    requires limit < |t| && spaceFrom <= k < limit && t[k] == ' '
    requires forall i :: 0 <= i < limit ==> t[i] != '\n'
    requires forall i :: k < i < limit ==> t[i] != ' '
    ensures Cut(t, limit, spaceFrom) == k && Rest(t, limit, spaceFrom) == t[k..]
  {
    RFindMissing(t, "\n\n", 0, limit);
    RFindMissing(t, "\n", 0, limit);
    assert OccursAt(t, " ", k) by { assert t[k..k + 1] == [t[k]]; }
    RFindLast(t, " ", spaceFrom, limit, k);
  }

  /**
   * A pass cuts at the last paragraph break `"\n\n"` before the limit, at
   * index `k`, whatever spaces there are.
   */
  lemma CutAtLastParagraph(t: string, limit: nat, spaceFrom: nat, k: nat)
    requires limit < |t| && k + 2 <= limit && t[k] == '\n' && t[k + 1] == '\n'
    requires forall i :: k < i < limit - 1 ==> !(t[i] == '\n' && t[i + 1] == '\n')
    ensures Cut(t, limit, spaceFrom) == k
  {
    assert OccursAt(t, "\n\n", k) by { assert t[k..k + 2] == [t[k], t[k + 1]]; }
    forall i: nat | k < i && i + 2 <= limit ensures !OccursAt(t, "\n\n", i) {
      assert t[i..i + 2] == [t[i], t[i + 1]];
    }
    RFindIs(t, "\n\n", 0, limit, k);
  }

  /**
   * With no paragraph break before the limit, a pass cuts at the last line
   * break in range, at index `k`, whatever spaces there are.
   */
  lemma CutAtLastLine(t: string, limit: nat, spaceFrom: nat, k: nat)
    requires limit < |t| && k < limit && t[k] == '\n'
    requires forall i :: 0 <= i < limit - 1 ==> !(t[i] == '\n' && t[i + 1] == '\n')
    requires forall i :: k < i < limit ==> t[i] != '\n'
    ensures Cut(t, limit, spaceFrom) == k
  {
    forall i: nat | i + 2 <= limit ensures !OccursAt(t, "\n\n", i) {
      assert t[i..i + 2] == [t[i], t[i + 1]];
    }
    RFindAbsent(t, "\n\n", 0, limit);
    assert OccursAt(t, "\n", k) by { assert t[k..k + 1] == [t[k]]; }
    RFindLast(t, "\n", 0, limit, k);
  }

  /** With neither a newline nor a searchable space before the limit, a pass cuts hard at the limit. */
  lemma HardCut(t: string, limit: nat, spaceFrom: nat)
    requires limit < |t| && t[limit] != '\n'
    requires forall i :: 0 <= i < limit ==> t[i] != '\n' && (spaceFrom <= i ==> t[i] != ' ')
    ensures Cut(t, limit, spaceFrom) == limit && Rest(t, limit, spaceFrom) == t[limit..]
  {
    RFindMissing(t, "\n\n", 0, limit);
    RFindMissing(t, "\n", 0, limit);
    RFindMissing(t, " ", spaceFrom, limit);
  }

  /**
   * The code as written loops forever on a long remainder that starts with a
   * space and has no other space and no newline before the limit: every pass
   * cuts at 0, appends "" and leaves the remainder as it was.
   */
  lemma StuckAtSpace(r: string, limit: nat)
    requires 1 <= limit < |r| && r[0] == ' '
    requires forall i :: 0 <= i < limit ==> r[i] != '\n' && (1 <= i ==> r[i] != ' ')
    ensures Cut(r, limit, 0) == 0 && Rest(r, limit, 0) == r
    ensures !Terminates(r, limit, 0)
  {
    CutAtLastSpace(r, limit, 0, 0);
  }

  /**
   * The code as written never finishes on "a bb" with limit 2: the first pass
   * cuts at the space (index 1) and leaves " bb", on which it is stuck
   * (`StuckAtSpace`).
   */
  lemma SpaceCutSpins(t: string, limit: nat)
    requires t == "a bb" && limit == 2
    ensures !Terminates(t, limit, 0)
  {
    CutAtLastSpace(t, limit, 0, 1);
    StuckAtSpace(t[1..], limit);
  }

  /** With the space search starting at index 1, every pass makes progress and the loop always ends. */
  lemma {:induction false} CorrectedTerminates(t: string, limit: nat)
    requires limit >= 1
    ensures Terminates(t, limit, 1)
    decreases |t|
  {
    if |t| > limit {
      CutAtBreak(t, limit, 1);
      StepProgress(t, limit, 1);
      CorrectedTerminates(Rest(t, limit, 1), limit);
    }
  }

  /** The two passes of the corrected chunker on "a bb" with limit 2: at the space, then hard. */
  lemma CorrectedPasses(t: string, limit: nat)
    requires t == "a bb" && limit == 2
    ensures Cut(t, limit, 1) == 1 && Rest(t, limit, 1) == t[1..]
    ensures Cut(t[1..], limit, 1) == 2 && Rest(t[1..], limit, 1) == t[1..][2..]
    ensures t[..1] == "a" && t[1..][..2] == " b" && t[1..][2..] == "b"
  {
    var r := t[1..];
    assert t[0] == 'a' && t[1] == ' ' && r[0] == ' ' && r[1] == 'b' && r[2] == 'b';
    CutAtLastSpace(t, limit, 1, 1);
    HardCut(r, limit, 1);
  }

  /** The corrected chunker on the input that makes the original spin. */
  lemma CorrectedExample(t: string, limit: nat)
    requires t == "a bb" && limit == 2
    ensures Terminates(t, limit, 1)
    ensures Chunks(t, limit, 1) == ["a", " b", "b"]
  {
    CorrectedPasses(t, limit);
    CorrectedTerminates(t, limit);
    var r := t[1..];
    PiecesStep(t, limit, 1);
    PiecesStep(r, limit, 1);
    assert Pieces(r[2..], limit, 1) == [r[2..]];
  }

  /** On a text without spaces the code as written always ends (for a positive limit). */
  lemma {:induction false} NoSpaceTerminates(t: string, limit: nat)
    requires limit >= 1
    requires ' ' !in t
    ensures Terminates(t, limit, 0)
    decreases |t|
  {
    if |t| > limit {
      CutAtBreak(t, limit, 0);
      StepProgress(t, limit, 0);
      RestKeepsOut(t, limit, 0, ' ');
      NoSpaceTerminates(Rest(t, limit, 0), limit);
    }
  }

  /**
   * A pass that makes progress when spaces are searched from 0 cuts where the
   * corrected search cuts: a space found at 0 would be a cut at 0 before a
   * non-newline, and leave the text as it was.
   */
  lemma SameCutOnProgress(t: string, limit: nat)
    requires limit < |t| && |Rest(t, limit, 0)| < |t|
    ensures Cut(t, limit, 0) == Cut(t, limit, 1) && Rest(t, limit, 0) == Rest(t, limit, 1)
  {
    var para := RFind(t, "\n\n", 0, limit);
    var line := RFind(t, "\n", 0, limit);
    if para == -1 && line == -1 {
      var space := RFind(t, " ", 0, limit);
      StepProgress(t, limit, 0);
      RFindNone(t, '\n', 0, limit);
      assert space == -1 || space >= 1;
      RFindSpec(t, " ", 0, limit);
      if space == -1 {
        RFindAbsent(t, " ", 1, limit);
      } else {
        RFindIs(t, " ", 1, limit, space);
      }
    }
  }

  /**
   * Wherever the loop as written ends, the corrected loop ends too and cuts
   * the same pieces: the correction changes only the replies on which the
   * code as written never returns.
   */
  lemma {:induction false} CorrectionConservative(t: string, limit: nat)
    requires Terminates(t, limit, 0)
    ensures Terminates(t, limit, 1) && Pieces(t, limit, 0) == Pieces(t, limit, 1)
    decreases |t|
  {
    if |t| > limit {
      PiecesStep(t, limit, 0);
      SameCutOnProgress(t, limit);
      CorrectionConservative(Rest(t, limit, 0), limit);
      assert Terminates(t, limit, 1);
      PiecesStep(t, limit, 1);
    }
  }

  /** On a text without spaces the loop as written ends, and the correction changes nothing. */
  lemma {:induction false} NoSpaceAgreement(t: string, limit: nat)
    requires ' ' !in t && limit >= 1
    ensures Terminates(t, limit, 0) && Terminates(t, limit, 1) && Pieces(t, limit, 0) == Pieces(t, limit, 1)
  {
    NoSpaceTerminates(t, limit);
    CorrectionConservative(t, limit);
  }

  /** `CorrectionConservative` for whole replies. */
  lemma ChunksConservative(text: string, limit: nat)
    requires Terminates(text, limit, 0)
    ensures Terminates(text, limit, 1) && Chunks(text, limit, 0) == Chunks(text, limit, 1)
  {
    CorrectionConservative(text, limit);
  }

  /** The loop of `chunk_message`, for either place from which spaces are searched. */
  method ChunkWith(text: string, limit: nat, spaceFrom: nat) returns (chunks: seq<string>)
    requires Terminates(text, limit, spaceFrom)
    ensures chunks == Chunks(text, limit, spaceFrom)
  {
    if |text| <= limit {
      return [text];
    }
    chunks := [];
    var rest := text;
    while rest != ""
      invariant Terminates(rest, limit, spaceFrom)
      invariant chunks + Pieces(rest, limit, spaceFrom) == Pieces(text, limit, spaceFrom)
      decreases |rest|
    {
      if |rest| <= limit {
        chunks := chunks + [rest];
        break;
      }
      PiecesStep(rest, limit, spaceFrom);
      var cut := Cut(rest, limit, spaceFrom);
      chunks := chunks + [rest[..cut]];
      rest := LStripChar(rest[cut..], '\n');
    }
  }

  /**
   * `chunk_message` as written. Its precondition is exactly that the loop ends;
   * `SpaceCutSpins` shows an input that fails it.
   */
  method ChunkMessage(text: string, limit: nat) returns (chunks: seq<string>)
    requires Terminates(text, limit, 0)
    ensures chunks == Chunks(text, limit, 0)
    ensures forall i :: 0 <= i < |chunks| ==> |chunks[i]| <= limit
    ensures |text| <= limit ==> chunks == [text]
  {
    chunks := ChunkWith(text, limit, 0);
    ChunksBounded(text, limit, 0);
  }

  /** `chunk_message` with the space search starting at index 1: it ends on every text. */
  method ChunkMessageCorrected(text: string, limit: nat) returns (chunks: seq<string>)
    requires limit >= 1
    ensures Terminates(text, limit, 1) && chunks == Chunks(text, limit, 1)
    ensures Terminates(text, limit, 0) ==> chunks == Chunks(text, limit, 0)
    ensures forall i :: 0 <= i < |chunks| ==> |chunks[i]| <= limit
    ensures |text| <= limit ==> chunks == [text]
  {
    CorrectedTerminates(text, limit);
    chunks := ChunkWith(text, limit, 1);
    ChunksBounded(text, limit, 1);
    if Terminates(text, limit, 0) {
      ChunksConservative(text, limit);
    }
  }
}
