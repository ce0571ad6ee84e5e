/** The tag parser the admin pages apply to the comma-separated tag field: blank input gives
    no tags; otherwise the text is split at commas, each piece is trimmed, and the pieces left
    blank are dropped. Order and repeats are kept. */
module TagInput {
  import opened Wrappers
  import opened Text

  /** What one piece contributes: itself trimmed, or nothing when that is blank. */
  function Kept(piece: string): (r: seq<string>)
    ensures |r| <= 1
  {
    var t := Trim(piece);
    if Blank(t) then [] else [t]
  }

  /** `Select(t => t.Trim()).Where(t => !string.IsNullOrWhiteSpace(t))` over the pieces. */
  function Clean(pieces: seq<string>): (r: seq<string>)
    ensures |r| <= |pieces|
  {
    if |pieces| == 0 then [] else Kept(pieces[0]) + Clean(pieces[1..])
  }

  /** A tag the parser gives back unchanged: trimmed, not blank and without a comma. */
  predicate PlainTag(t: string) {
    IsTrimmed(t) && !Blank(t) && ',' !in t
  }

  /** Every tag of the list is plain, stated one tag at a time. */
  predicate AllPlain(tags: seq<string>) {
    |tags| == 0 || (PlainTag(tags[0]) && AllPlain(tags[1..]))
  }

  lemma {:induction false} AllPlainOf(tags: seq<string>)
    requires forall i :: 0 <= i < |tags| ==> PlainTag(tags[i])
    ensures AllPlain(tags)
  {
    if |tags| > 0 {
      assert forall i :: 0 <= i < |tags[1..]| ==> tags[1..][i] == tags[i + 1];
      AllPlainOf(tags[1..]);
    }
  }

  lemma {:induction false} AllPlainAll(tags: seq<string>)
    requires AllPlain(tags)
    ensures forall i :: 0 <= i < |tags| ==> PlainTag(tags[i])
  {
    if |tags| > 0 {
      AllPlainAll(tags[1..]);
      assert forall i :: 1 <= i < |tags| ==> tags[i] == tags[1..][i - 1];
    }
  }

  lemma {:induction false} AllPlainAppend(a: seq<string>, b: seq<string>)
    requires AllPlain(a) && AllPlain(b)
    ensures AllPlain(a + b)
  {
    if |a| > 0 {
      AllPlainAppend(a[1..], b);
      assert (a + b)[0] == a[0] && (a + b)[1..] == a[1..] + b;
    } else {
      assert a + b == b;
    }
  }

  /** A piece without a comma contributes plain tags only. */
  lemma KeptIsPlain(piece: string)
    requires ',' !in piece
    ensures AllPlain(Kept(piece))
  {
    TrimKeepsOut(piece, ',');
  }

  /** Pieces without a comma clean up to plain tags. */
  lemma {:induction false} CleanedArePlain(pieces: seq<string>)
    requires forall j :: 0 <= j < |pieces| ==> ',' !in pieces[j]
    ensures AllPlain(Clean(pieces))
  {
    if |pieces| > 0 {
      KeptIsPlain(pieces[0]);
      assert forall j :: 0 <= j < |pieces[1..]| ==> pieces[1..][j] == pieces[j + 1];
      CleanedArePlain(pieces[1..]);
      AllPlainAppend(Kept(pieces[0]), Clean(pieces[1..]));
    }
  }

  /** The tags in the text of the tag field. */
  function ParseTags(input: Option<string>): (tags: seq<string>)
    ensures NullOrBlank(input) ==> tags == []
    ensures forall i :: 0 <= i < |tags| ==> PlainTag(tags[i])
  {
    if NullOrBlank(input) then []
    else
      var pieces := Split(input.value, ',');
      CleanedArePlain(pieces);
      AllPlainAll(Clean(pieces));
      Clean(pieces)
  }

  /** Each tag behind one blank, as it follows a comma in the joined text. */
  function Spaced(tags: seq<string>): (r: seq<string>)
    ensures |r| == |tags|
  {
    if |tags| == 0 then [] else [" " + tags[0]] + Spaced(tags[1..])
  }

  /** The pieces `Split(',')` finds in `p + string.Join(", ", tags)`: the first tag behind the
      prefix, every later one behind the blank that followed its comma. */
  lemma {:induction false} SplitJoined(p: string, tags: seq<string>)
    requires |tags| >= 1 && ',' !in p
    requires AllPlain(tags)
    ensures Split(p + Join(", ", tags), ',') == [p + tags[0]] + Spaced(tags[1..])
    decreases |tags|
  {
    if |tags| == 1 {
      SplitNoSeparator(p + tags[0], ',');
    } else {
      var rest := Join(", ", tags[1..]);
      assert p + Join(", ", tags) == (p + tags[0]) + [','] + (" " + rest);
      SplitAtFirst(p + tags[0], ',', " " + rest);
      SplitJoined(" ", tags[1..]);
    }
  }

  /** A first piece that trims to something not blank is kept, trimmed. */
  lemma CleanKeepsFirst(p: string, rest: seq<string>)
    requires !Blank(Trim(p))
    ensures Clean([p] + rest) == [Trim(p)] + Clean(rest)
  {
    assert ([p] + rest)[0] == p && ([p] + rest)[1..] == rest;
    assert Kept(p) == [Trim(p)];
  }

  /** One more plain tag in front of tags that clean up from behind blanks. */
  lemma CleanSpacedFront(t: string, rest: seq<string>)
    requires PlainTag(t) && Clean(Spaced(rest)) == rest
    ensures Clean(Spaced([t] + rest)) == [t] + rest
  {
    assert ([t] + rest)[0] == t && ([t] + rest)[1..] == rest;
    assert Spaced([t] + rest) == [" " + t] + Spaced(rest);
    TrimLeadingSpace(t);
    CleanKeepsFirst(" " + t, Spaced(rest));
  }

  /** Cleaning pieces that are plain tags behind one blank gives the tags back. */
  lemma {:induction false} CleanSpaced(tags: seq<string>)
    requires AllPlain(tags)
    ensures Clean(Spaced(tags)) == tags
  {
    if |tags| > 0 {
      var t, rest := tags[0], tags[1..];
      CleanSpaced(rest);
      CleanSpacedFront(t, rest);
      HeadTail(tags);
    }
  }

  /** A non-empty list is its head followed by its tail. */
  lemma HeadTail(tags: seq<string>)
    requires |tags| > 0
    ensures [tags[0]] + tags[1..] == tags
  {
  }

  /** The joined text starts with the first tag. */
  lemma JoinStartsWithFirst(tags: seq<string>)
    requires |tags| >= 1
    ensures |Join(", ", tags)| >= |tags[0]| && Join(", ", tags)[..|tags[0]|] == tags[0]
  {
    if |tags| > 1 {
      assert Join(", ", tags) == tags[0] + (", " + Join(", ", tags[1..]));
    }
  }

  /** The joined text of at least one plain tag is not blank. */
  lemma JoinedNotBlank(tags: seq<string>)
    requires |tags| >= 1 && PlainTag(tags[0])
    ensures !Blank(Join(", ", tags))
  {
    JoinStartsWithFirst(tags);
    assert Join(", ", tags)[0] == tags[0][0];
  }

  /** Text that is not blank is split and cleaned. */
  lemma ParseNonBlank(text: string)
    requires !Blank(text)
    ensures ParseTags(Some(text)) == Clean(Split(text, ','))
  {
  }

  /** The pieces of the joined text: the first tag, then every later one behind a blank. */
  lemma SplitJoinedText(tags: seq<string>)
    requires |tags| >= 1 && AllPlain(tags)
    ensures Split(Join(", ", tags), ',') == [tags[0]] + Spaced(tags[1..])
  {
    SplitJoined("", tags);
    assert "" + Join(", ", tags) == Join(", ", tags);
    assert "" + tags[0] == tags[0];
  }

  /** A plain tag followed by plain tags behind blanks cleans up to the tags themselves. */
  lemma CleanPlainFront(t: string, rest: seq<string>)
    requires PlainTag(t) && AllPlain(rest)
    ensures Clean([t] + Spaced(rest)) == [t] + rest
  {
    TrimTrimmed(t);
    CleanKeepsFirst(t, Spaced(rest));
    CleanSpaced(rest);
  }

  /** The pieces of the joined text clean up to the tags. */
  lemma CleanPieces(tags: seq<string>, pieces: seq<string>)
    requires |tags| >= 1 && AllPlain(tags)
    requires pieces == [tags[0]] + Spaced(tags[1..])
    ensures Clean(pieces) == tags
  {
    CleanPlainFront(tags[0], tags[1..]);
    assert [tags[0]] + tags[1..] == tags;
  }

  /** Splitting and cleaning the joined text gives the tags back. */
  lemma CleanJoined(tags: seq<string>)
    requires |tags| >= 1 && AllPlain(tags)
    ensures Clean(Split(Join(", ", tags), ',')) == tags
  {
    var pieces := Split(Join(", ", tags), ',');
    SplitJoinedText(tags);
    CleanPieces(tags, pieces);
  }

  /** Round trip with the Edit page, which shows the tags joined by ", ": parsing that text
      gives the same tags back, in order and with repeats, when each one is a plain tag. */
  lemma ParseJoinedTags(tags: seq<string>)
    requires forall i :: 0 <= i < |tags| ==> PlainTag(tags[i])
    ensures ParseTags(Some(Join(", ", tags))) == tags
  {
    if |tags| > 0 {
      JoinedNotBlank(tags);
      ParseNonBlank(Join(", ", tags));
      AllPlainOf(tags);
      CleanJoined(tags);
    }
  }
}
