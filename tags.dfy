/** The tag input of the store admin form: `handleTagsChange` turns the typed
    text into the tag list, and the input shows the list as `tags.join(', ')`. */
module Tags {
  import opened Strings
  import Seqs

  /** A tag as the parser produces it: non-empty, without `,`, and without
      whitespace at either end. */
  predicate IsCleanTag(t: string) {
    t != [] && ',' !in t && !IsWhitespace(t[0]) && !IsWhitespace(t[|t| - 1])
  }

  /** What one piece contributes: its trimmed text, unless that is empty. */
  function TrimPiece(piece: string): seq<string> {
    var t := Trim(piece);
    if t == "" then [] else [t]
  }

  /** `.map(tag => tag.trim()).filter(tag => tag)`. */
  function TrimNonEmpty(pieces: seq<string>): seq<string> {
    if pieces == [] then [] else TrimPiece(pieces[0]) + TrimNonEmpty(pieces[1..])
  }

  /** The list is the pieces' contributions laid end to end. */
  lemma {:induction false} TrimNonEmptyFlat(pieces: seq<string>)
    ensures TrimNonEmpty(pieces) == Seqs.FlatMap(pieces, TrimPiece)
    decreases |pieces|
  {
    if pieces != [] {
      TrimNonEmptyFlat(pieces[1..]);
      Seqs.FlatMapFront(pieces, TrimPiece);
    }
  }

  /** Every tag of the list is clean. */
  predicate AllClean(tags: seq<string>) {
    forall i :: 0 <= i < |tags| ==> IsCleanTag(tags[i])
  }

  /** Trimmed non-empty pieces without commas are clean tags. */
  lemma TrimNonEmptyClean(pieces: seq<string>)
    requires forall i :: 0 <= i < |pieces| ==> ',' !in pieces[i]
    ensures AllClean(TrimNonEmpty(pieces))
  {
    forall i | 0 <= i < |pieces| ensures AllClean(TrimPiece(pieces[i])) {
      TrimPieceClean(pieces[i]);
    }
    Seqs.FlatMapAll(pieces, TrimPiece, IsCleanTag);
    TrimNonEmptyFlat(pieces);
  }

  /** A piece without commas contributes only a clean tag. */
  lemma TrimPieceClean(piece: string)
    requires ',' !in piece
    ensures AllClean(TrimPiece(piece))
  {
    var t := Trim(piece);
    TrimAbsent(piece, ',');
    if t != "" {
      assert TrimPiece(piece) == [t];
      assert IsCleanTag(t);
    }
  }

  lemma TrimNonEmptyConcat(a: seq<string>, b: seq<string>)
    ensures TrimNonEmpty(a + b) == TrimNonEmpty(a) + TrimNonEmpty(b)
  {
    TrimNonEmptyFlat(a);
    TrimNonEmptyFlat(b);
    TrimNonEmptyFlat(a + b);
    Seqs.FlatMapConcat(a, b, TrimPiece);
  }

  /** `e.target.value.split(',').map(tag => tag.trim()).filter(tag => tag)`. */
  function ParseTags(input: string): seq<string> {
    TrimNonEmpty(Split(input, ','))
  }

  /** Every parsed tag is clean. */
  lemma ParseTagsClean(input: string)
    ensures forall i :: 0 <= i < |ParseTags(input)| ==> IsCleanTag(ParseTags(input)[i])
  {
    TrimNonEmptyClean(Split(input, ','));
  }

  /** The text the tag input displays: `tags.join(', ')`. */
  function ShowTags(tags: seq<string>): string {
    Join(tags, ", ")
  }

  /** Parsing keeps the order of the text: the tags of two comma-separated
      halves are those of the first half followed by those of the second. */
  lemma ParseTagsConcat(a: string, b: string)
    ensures ParseTags(a + "," + b) == ParseTags(a) + ParseTags(b)
  {
    SplitConcat(a, b, ',');
    TrimNonEmptyConcat(Split(a, ','), Split(b, ','));
  }

  /** Whitespace in front of the text never changes the tags. */
  lemma ParseTagsLeadingSpace(x: string)
    ensures ParseTags(" " + x) == ParseTags(x)
  {
    var s := " " + x;
    assert s[1..] == x;
    var px := Split(x, ',');
    var ps := Split(s, ',');
    assert ps == [" " + px[0]] + px[1..];
    TrimLeadingWhitespace(' ', px[0]);
    assert [' '] + px[0] == " " + px[0];
    assert ps[0] == " " + px[0] && ps[1..] == px[1..];
    assert TrimNonEmpty(ps) == TrimPiece(ps[0]) + TrimNonEmpty(ps[1..]);
    assert TrimNonEmpty(px) == TrimPiece(px[0]) + TrimNonEmpty(px[1..]);
  }

  /** A clean tag on its own parses to itself. */
  lemma ParseSingleTag(t: string)
    requires IsCleanTag(t)
    ensures ParseTags(t) == [t]
  {
    SplitNoSeparator(t, ',');
    assert Trim(t) == t;
    assert TrimNonEmpty([t]) == TrimPiece(t) + TrimNonEmpty([]);
  }

  /** The empty text has no tags. */
  lemma ParseNoTags()
    ensures ParseTags("") == []
  {
    assert Split("", ',') == [""];
    assert TrimNonEmpty([""]) == TrimPiece("") + TrimNonEmpty([]);
  }

  /** One step of the round trip: a clean tag in front of a displayed list. */
  lemma ParseShowTagsStep(tags: seq<string>)
    requires |tags| >= 2 && IsCleanTag(tags[0])
    requires ParseTags(ShowTags(tags[1..])) == tags[1..]
    ensures ParseTags(ShowTags(tags)) == tags
  {
    assert tags == [tags[0]] + tags[1..];
    var rest := ShowTags(tags[1..]);
    assert ShowTags(tags) == tags[0] + "," + (" " + rest) by {
      assert ShowTags(tags) == tags[0] + ", " + rest;
    }
    ParseTagsConcat(tags[0], " " + rest);
    ParseTagsLeadingSpace(rest);
    ParseSingleTag(tags[0]);
    calc {
      ParseTags(ShowTags(tags));
      ParseTags(tags[0] + "," + (" " + rest));
      ParseTags(tags[0]) + ParseTags(" " + rest);
      [tags[0]] + tags[1..];
      tags;
    }
  }

  /** Re-parsing the displayed text of a list of clean tags gives the list back. */
  lemma {:induction false} ParseShowTags(tags: seq<string>)
    requires forall i :: 0 <= i < |tags| ==> IsCleanTag(tags[i])
    ensures ParseTags(ShowTags(tags)) == tags
    decreases |tags|
  {
    if |tags| == 0 {
      ParseNoTags();
    } else if |tags| == 1 {
      ParseSingleTag(tags[0]);
    } else {
      ParseShowTags(tags[1..]);
      ParseShowTagsStep(tags);
    }
  }

  /** A comma typed at the end of the field parses away, so the display
      `tags.join(', ')` that the controlled input shows next no longer has it:
      a new tag cannot be started by typing `,` after the last one. */
  lemma TrailingCommaDropped(x: string)
    ensures ParseTags(x + ",") == ParseTags(x)
    ensures ShowTags(ParseTags(x + ",")) == ShowTags(ParseTags(x))
  {
    assert x + "," == x + "," + "";
    ParseTagsConcat(x, "");
    ParseNoTags();
  }
}
