/** The tags field of the link form: how its comma-separated text becomes a tag list
    on submit, and how a tag list is written back into it when a link is edited. */
module Tags {
  import opened Text
  import opened Links

  /** What a parsed tag always is: not empty, no white space at either end, no comma. */
  ghost predicate WellFormedTag(t: string) {
    t != [] && IsTrimmed(t) && ',' !in t
  }

  /** Trims every piece and drops the pieces left empty. */
  function CleanPieces(pieces: seq<string>): (tags: seq<string>)
    ensures |tags| <= |pieces|
    ensures forall k :: 0 <= k < |tags| ==> tags[k] != [] && IsTrimmed(tags[k])
  {
    if pieces == [] then
      []
    else
      var t := Trim(pieces[0]);
      var rest := CleanPieces(pieces[1..]);
      if t == [] then rest
      else
        assert forall k :: 1 <= k < |rest| + 1 ==> ([t] + rest)[k] == rest[k - 1];
        [t] + rest
  }

  /** `map(tag => tag.trim())`. */
  function TrimEach(pieces: seq<string>): (r: seq<string>)
    ensures |r| == |pieces|
    ensures forall k :: 0 <= k < |pieces| ==> r[k] == Trim(pieces[k])
  {
    seq(|pieces|, k requires 0 <= k < |pieces| => Trim(pieces[k]))
  }

  /** The test of `filter(tag => tag !== '')`. */
  const NotEmpty: string -> bool := (t: string) => t != []

  /** `CleanPieces` is the chain `map(trim)` then `filter(tag !== '')`. */
  lemma {:induction false} CleanPiecesIsChain(pieces: seq<string>)
    ensures CleanPieces(pieces) == Keep(TrimEach(pieces), NotEmpty)
  {
    if pieces != [] {
      CleanPiecesIsChain(pieces[1..]);
      assert TrimEach(pieces)[1..] == TrimEach(pieces[1..]);
    }
  }

  /** Trimming brings in no comma. */
  lemma {:induction false} CleanPiecesNoComma(pieces: seq<string>)
    requires forall k :: 0 <= k < |pieces| ==> ',' !in pieces[k]
    ensures forall k :: 0 <= k < |CleanPieces(pieces)| ==> ',' !in CleanPieces(pieces)[k]
  {
    if pieces != [] {
      TrimNoNewChars(pieces[0], ',');
      CleanPiecesNoComma(pieces[1..]);
    }
  }

  /** The tags of a submitted form: an empty field gives no tags; otherwise the field is
      split at commas, each piece trimmed and the empty pieces dropped, left to right. */
  function ParseTags(field: string): (tags: seq<string>)
    ensures forall k :: 0 <= k < |tags| ==> WellFormedTag(tags[k])
    ensures field == [] ==> tags == []
    ensures field != [] ==> tags == Keep(TrimEach(Split(field, ',')), NotEmpty)
    ensures field != [] ==> IsSubsequence(tags, TrimEach(Split(field, ',')))
  {
    if field == [] then
      []
    else
      var pieces := Split(field, ',');
      CleanPiecesNoComma(pieces);
      CleanPiecesIsChain(pieces);
      KeepIsSubsequence(TrimEach(pieces), NotEmpty);
      CleanPieces(pieces)
  }

  /** The text the edit form shows for a tag list: the tags joined by ", ". */
  function FormatTags(tags: seq<string>): string {
    Join(tags, ", ")
  }

  /** Each tag with a space in front: what `FormatTags` leaves between two commas. */
  function SpaceEach(tags: seq<string>): (r: seq<string>)
    ensures |r| == |tags|
  {
    if tags == [] then [] else [[' '] + tags[0]] + SpaceEach(tags[1..])
  }

  lemma {:induction false} JoinSpaced(tags: seq<string>)
    requires tags != []
    ensures Join(SpaceEach(tags), ",") == [' '] + Join(tags, ", ")
  {
    if |tags| > 1 {
      JoinSpaced(tags[1..]);
      assert SpaceEach(tags)[1..] == SpaceEach(tags[1..]);
      assert [' '] + tags[0] + "," + ([' '] + Join(tags[1..], ", "))
          == [' '] + (tags[0] + ", " + Join(tags[1..], ", "));
    }
  }

  /** The first spaced tag trims back to the tag itself. */
  lemma CleanSpacedStep(tags: seq<string>)
    requires tags != [] && WellFormedTag(tags[0])
    ensures CleanPieces(SpaceEach(tags)) == [tags[0]] + CleanPieces(SpaceEach(tags[1..]))
  {
    assert SpaceEach(tags)[1..] == SpaceEach(tags[1..]);
    TrimAfterSpace(tags[0]);
  }

  lemma {:induction false} CleanSpaced(tags: seq<string>)
    requires forall k :: 0 <= k < |tags| ==> WellFormedTag(tags[k])
    ensures CleanPieces(SpaceEach(tags)) == tags
  {
    if tags != [] {
      CleanSpacedStep(tags);
      CleanSpaced(tags[1..]);
      assert tags == [tags[0]] + tags[1..];
    }
  }

  /** Editing a link and submitting its form unchanged gives back the same tags:
      parsing undoes formatting for every list of well-formed tags. */
  lemma ParseFormatRoundTrip(tags: seq<string>)
    requires forall k :: 0 <= k < |tags| ==> WellFormedTag(tags[k])
    ensures ParseTags(FormatTags(tags)) == tags
  {
    if tags != [] {
      var pieces := [tags[0]] + SpaceEach(tags[1..]);
      if |tags| > 1 {
        JoinSpaced(tags[1..]);
        assert Join(pieces, ",") == tags[0] + "," + Join(SpaceEach(tags[1..]), ",");
      }
      assert Join(pieces, ",") == FormatTags(tags);
      assert forall k :: 1 <= k < |pieces| ==> pieces[k] == SpaceEach(tags[1..])[k - 1];
      assert forall k :: 0 <= k < |tags| - 1 ==> ',' !in SpaceEach(tags[1..])[k] by {
        SpacedPieces(tags[1..]);
      }
      SplitJoin(pieces, ',');
      TrimTrimmed(tags[0]);
      CleanSpaced(tags[1..]);
      assert pieces[1..] == SpaceEach(tags[1..]);
      assert tags == [tags[0]] + tags[1..];
    }
  }

  /** A space and a well-formed tag hold no comma. */
  lemma {:induction false} SpacedPieces(tags: seq<string>)
    requires forall k :: 0 <= k < |tags| ==> WellFormedTag(tags[k])
    ensures forall k :: 0 <= k < |tags| ==> SpaceEach(tags)[k] == [' '] + tags[k] && ',' !in SpaceEach(tags)[k]
  {
    if tags != [] {
      SpacedPieces(tags[1..]);
      assert forall k :: 1 <= k < |tags| ==> SpaceEach(tags)[k] == SpaceEach(tags[1..])[k - 1];
    }
  }

  /** Opening the edit form on parsed tags and submitting it unchanged is stable. */
  lemma ParseIsStable(field: string)
    ensures ParseTags(FormatTags(ParseTags(field))) == ParseTags(field)
  {
    ParseFormatRoundTrip(ParseTags(field));
  }
}
