/** The tag text box of the upload form and of the edit form: the text is
    split on commas, each piece trimmed and the empty pieces dropped; the edit
    form fills the box with the item's tags joined by `", "`. */
module TagInput {
  import opened Text
  import opened Seqs

  function TrimAll(parts: seq<string>): (r: seq<string>)
    ensures |r| == |parts|
    ensures forall i :: 0 <= i < |parts| ==> r[i] == Trim(parts[i])
  {
    seq(|parts|, i requires 0 <= i < |parts| => Trim(parts[i]))
  }

  /** `input.split(',').map(tag => tag.trim()).filter(tag => tag.length > 0)`. */
  function ParseTagInput(input: string): (tags: seq<string>)
    ensures forall i :: 0 <= i < |tags| ==> tags[i] != [] && IsTrimmed(tags[i]) && ',' !in tags[i]
  {
    var pieces := Split(input, ',');
    var trimmed := TrimAll(pieces);
    assert forall i :: 0 <= i < |trimmed| ==> ',' !in trimmed[i] by {
      forall i | 0 <= i < |trimmed| ensures ',' !in trimmed[i] {
        assert ',' !in pieces[i];
        TrimWithin(pieces[i]);
      }
    }
    Filter(NonEmpty, trimmed)
  }

  /** The `tag.length > 0` test of the parse. */
  predicate NonEmpty(t: string) {
    |t| > 0
  }

  /** What the edit form shows for an item's tags: `tags.join(', ')`. */
  function FormText(tags: seq<string>): string {
    Join(tags, ", ")
  }

  /** Tags that survive a trip through the text box: non-empty, trimmed, comma-free. */
  predicate WellFormedTags(tags: seq<string>) {
    forall i :: 0 <= i < |tags| ==> tags[i] != [] && IsTrimmed(tags[i]) && ',' !in tags[i]
  }

  function AllSpaced(ts: seq<string>): (r: seq<string>)
    ensures |r| == |ts|
    ensures forall i :: 0 <= i < |ts| ==> r[i] == " " + ts[i]
  {
    seq(|ts|, i requires 0 <= i < |ts| => " " + ts[i])
  }

  /** `", "` between pieces is `","` between pieces that start with a blank. */
  lemma {:induction false} JoinCommaSpace(ts: seq<string>)
    requires |ts| >= 1
    ensures " " + Join(ts, ", ") == Join(AllSpaced(ts), ",")
  {
    if |ts| > 1 {
      JoinCommaSpace(ts[1..]);
      assert AllSpaced(ts)[1..] == AllSpaced(ts[1..]);
      assert " " + Join(ts, ", ") == (" " + ts[0]) + "," + (" " + Join(ts[1..], ", "));
    }
  }

  /** The pieces `split(',')` finds in the form text: the first tag, then
      each further tag after its separating blank. */
  function FormPieces(tags: seq<string>): (parts: seq<string>)
    requires |tags| >= 1
    ensures |parts| == |tags| && parts[0] == tags[0]
    ensures forall i :: 1 <= i < |tags| ==> parts[i] == " " + tags[i]
  {
    [tags[0]] + AllSpaced(tags[1..])
  }

  lemma {:induction false} FormTextPieces(tags: seq<string>)
    requires |tags| >= 1
    ensures FormText(tags) == Join(FormPieces(tags), ",")
  {
    var parts := FormPieces(tags);
    if |tags| > 1 {
      JoinCommaSpace(tags[1..]);
      assert parts[1..] == AllSpaced(tags[1..]);
      assert FormText(tags) == tags[0] + "," + (" " + Join(tags[1..], ", "));
    }
  }

  /** Each piece of well-formed tags' form text is comma-free and trims
      back to its tag. */
  lemma FormPiecesTrim(tags: seq<string>)
    requires |tags| >= 1 && WellFormedTags(tags)
    ensures forall i :: 0 <= i < |tags| ==> ',' !in FormPieces(tags)[i]
    ensures TrimAll(FormPieces(tags)) == tags
  {
    var parts := FormPieces(tags);
    forall i | 0 <= i < |tags| ensures ',' !in parts[i] && Trim(parts[i]) == tags[i] {
      if i == 0 { TrimTrimmed(tags[0]); } else { TrimLeadingSpace(tags[i]); }
    }
  }

  /** The joined form text has no blank at either end. */
  lemma {:induction false} FormTextTrimmed(tags: seq<string>)
    requires WellFormedTags(tags)
    ensures IsTrimmed(FormText(tags))
    ensures |tags| >= 1 ==>
      && |FormText(tags)| >= 1
      && FormText(tags)[0] == tags[0][0]
      && FormText(tags)[|FormText(tags)| - 1] == tags[|tags| - 1][|tags[|tags| - 1]| - 1]
  {
    if |tags| > 1 {
      FormTextTrimmed(tags[1..]);
      var rest := FormText(tags[1..]);
      assert FormText(tags) == tags[0] + ", " + rest;
    }
  }

  /** Round trip of the edit form: showing well-formed tags in the text box
      and parsing the box unchanged gives the same tags back. */
  lemma {:induction false} FormTextRoundTrip(tags: seq<string>)
    requires WellFormedTags(tags)
    ensures ParseTagInput(Trim(FormText(tags))) == tags
  {
    if tags == [] {
      assert Trim(FormText(tags)) == [];
      assert Split([], ',') == [[]];
      assert TrimAll([[]]) == [[]];
      assert Filter(NonEmpty, [[]]) == [];
    } else {
      var text := FormText(tags);
      assert Trim(text) == text by {
        FormTextTrimmed(tags);
        TrimTrimmed(text);
      }
      var pieces := Split(text, ',');
      assert TrimAll(pieces) == tags by {
        FormTextPieces(tags);
        FormPiecesTrim(tags);
        SplitJoin(FormPieces(tags), ',');
      }
      assert Filter(NonEmpty, tags) == tags by {
        FilterAll(NonEmpty, tags);
      }
    }
  }
}
