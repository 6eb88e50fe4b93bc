/** The list fields of the admin forms. A list is edited as text: one item
    per line (features, technologies) or comma-separated (tags, skills). The
    form shows the joined list and sends back the split text. */
module AdminForms {
  import opened Common
  import opened Text
  import Seqs

  /** `text ? text.split('\n').filter(l => l.trim()) : []`: the lines that
      are not blank, each kept as typed. */
  function LinesList(text: Option<string>): (r: seq<string>)
    ensures !Truthy(text) ==> r == []
    ensures forall i :: 0 <= i < |r| ==> !IsBlank(r[i]) && '\n' !in r[i]
    ensures Truthy(text) ==> r == Seqs.Filter(Split(text.value, '\n'), (l: string) => !IsBlank(l))
  {
    if Truthy(text) then Seqs.Filter(Split(text.value, '\n'), (l: string) => !IsBlank(l)) else []
  }

  /** `list?.join('\n') || ''`. */
  function JoinLines(list: Option<seq<string>>): (t: string)
    ensures list.None? ==> t == ""
  {
    if list.Some? then Join(list.value, "\n") else ""
  }

  /** A list whose items are not blank and hold no line break survives being
      shown one per line and read back. */
  lemma LinesRoundTrip(items: seq<string>)
    requires forall i :: 0 <= i < |items| ==> !IsBlank(items[i]) && '\n' !in items[i]
    ensures LinesList(Some(JoinLines(Some(items)))) == items
  {
    if items != [] {
      SplitJoin(items, '\n');
      JoinNonEmpty(items, "\n");
      Seqs.FilterKeepsAll(items, (l: string) => !IsBlank(l));
    }
  }

  /** Every piece trimmed. */
  function TrimEach(parts: seq<string>): (r: seq<string>)
    ensures |r| == |parts|
    ensures forall i :: 0 <= i < |r| ==> r[i] == Trim(parts[i])
  {
    if parts == [] then [] else [Trim(parts[0])] + TrimEach(parts[1..])
  }

  /** `text ? text.split(',').map(s => s.trim()).filter(s => s) : []`: the
      comma-separated pieces, trimmed, without the empty ones. */
  function CommaList(text: Option<string>): (r: seq<string>)
    ensures !Truthy(text) ==> r == []
    ensures forall i :: 0 <= i < |r| ==> r[i] != "" && Trimmed(r[i]) && ',' !in r[i]
    ensures Truthy(text) ==> r == Seqs.Filter(TrimEach(Split(text.value, ',')), (s: string) => s != "")
  {
    if Truthy(text) then
      var pieces := Split(text.value, ',');
      var trimmed := TrimEach(pieces);
      assert forall i :: 0 <= i < |trimmed| ==> ',' !in trimmed[i] by {
        forall i | 0 <= i < |trimmed| ensures ',' !in trimmed[i] {
          NotInTrim(pieces[i], ',');
        }
      }
      Seqs.Filter(trimmed, (s: string) => s != "")
    else []
  }

  /** The comma-separated text of a list is not empty when the list is not. */
  lemma JoinNonEmpty(items: seq<string>, sep: string)
    requires items != [] && items[0] != ""
    ensures Join(items, sep) != ""
  {
    if |items| > 1 {
      assert Join(items, sep) == items[0] + sep + Join(items[1..], sep);
    }
  }

  /** Splitting the `", "`-joined text and trimming the pieces gives the
      items back. */
  lemma TrimmedPiecesOfJoin(items: seq<string>)
    requires items != []
    requires forall i :: 0 <= i < |items| ==> Trimmed(items[i]) && ',' !in items[i]
    ensures TrimEach(Split(Join(items, ", "), ',')) == items
  {
    SplitPiecesOfJoin(items);
    TrimEachPadded(Split(Join(items, ", "), ','), items);
  }

  /** Trimming pieces that are trimmed items, all but the first behind one
      space, gives the items. */
  lemma TrimEachPadded(pieces: seq<string>, items: seq<string>)
    requires |pieces| == |items| > 0 && pieces[0] == items[0]
    requires forall i :: 1 <= i < |items| ==> pieces[i] == " " + items[i]
    requires forall i :: 0 <= i < |items| ==> Trimmed(items[i])
    ensures TrimEach(pieces) == items
  {
    var trimmed := TrimEach(pieces);
    forall i | 0 <= i < |items| ensures trimmed[i] == items[i] {
      if i == 0 {
        TrimOfTrimmed(items[0]);
      } else {
        TrimSpaced(items[i]);
      }
    }
  }

  /** The pieces of the `", "`-joined text: the first item, then every other
      item behind one space. */
  lemma SplitPiecesOfJoin(items: seq<string>)
    requires items != []
    requires forall i :: 0 <= i < |items| ==> ',' !in items[i]
    ensures |Split(Join(items, ", "), ',')| == |items|
    ensures Split(Join(items, ", "), ',')[0] == items[0]
    ensures forall i :: 1 <= i < |items| ==> Split(Join(items, ", "), ',')[i] == " " + items[i]
  {
    assert [','] + " " == ", ";
    SplitJoinPadded(items, ',', " ");
  }

  lemma TrimSpaced(x: string)
    requires Trimmed(x)
    ensures Trim(" " + x) == x
  {
    assert AllWhitespace(" ") by {
      assert IsWhitespace(' ');
    }
    TrimAfterSpace(" ", x);
    TrimOfTrimmed(x);
  }

  /** Trimmed, non-empty pieces without commas, joined with `", "`, split
      back into the same list. */
  lemma CommaRoundTrip(items: seq<string>)
    requires forall i :: 0 <= i < |items| ==> items[i] != "" && Trimmed(items[i]) && ',' !in items[i]
    ensures CommaList(Some(Join(items, ", "))) == items
  {
    if items != [] {
      JoinNonEmpty(items, ", ");
      TrimmedPiecesOfJoin(items);
      Seqs.FilterKeepsAll(items, (s: string) => s != "");
    }
  }

  /** Where a save goes: `PUT` to the edited record's id, or `POST` to the
      collection. */
  datatype SaveTarget = Put(id: nat) | Post

  function SaveTargetFor(editing: Option<nat>): (t: SaveTarget)
    ensures editing.Some? <==> t.Put?
    ensures editing.Some? ==> t == Put(editing.value)
  {
    if editing.Some? then Put(editing.value) else Post
  }
}
