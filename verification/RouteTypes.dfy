/** Messages of the RouteGuide service. */
module RouteTypes {
  import opened Common

  /** Coordinates are int32 values. */
  datatype Point = Point(latitude: int, longitude: int)

  datatype Feature = Feature(name: string, location: Point)

  datatype Note = Note(message: string, location: Point)

  /** The notes at a location, in order. */
  function At(notes: seq<Note>, p: Point): seq<Note> {
    if notes == [] then []
    else At(notes[..|notes| - 1], p)
         + if notes[|notes| - 1].location == p then [notes[|notes| - 1]] else []
  }

  lemma {:induction false} AtConcat(a: seq<Note>, b: seq<Note>, p: Point)
    ensures At(a + b, p) == At(a, p) + At(b, p)
    decreases |b|
  {
    if b == [] {
      assert a + b == a;
    } else {
      var front := b[..|b| - 1];
      assert (a + b)[..|a + b| - 1] == a + front;
      AtConcat(a, front, p);
    }
  }

  lemma AtNext(notes: seq<Note>, i: nat, p: Point)
    requires i < |notes|
    ensures At(notes[..i + 1], p) == At(notes[..i], p) + if notes[i].location == p then [notes[i]] else []
  {
    assert notes[..i + 1][..i] == notes[..i];
  }

  /** A longer log has the notes of a shorter one first. */
  lemma AtPrefix(notes: seq<Note>, i: nat, j: nat, p: Point)
    requires i <= j <= |notes|
    ensures At(notes[..j], p) == At(notes[..i], p) + At(notes[i..j], p)
  {
    assert notes[..j] == notes[..i] + notes[i..j];
    AtConcat(notes[..i], notes[i..j], p);
  }

  /** The notes at a location are those at the positions `at`, in order and each once, which are the positions of the
      notes with its two coordinates and no others. */
  lemma {:induction false} AtExactly(notes: seq<Note>, p: Point) returns (at: seq<nat>)
    ensures Picks(notes, at, At(notes, p))
    ensures forall i: nat :: i < |notes| ==>
              (i in at <==> notes[i].location.latitude == p.latitude && notes[i].location.longitude == p.longitude)
    decreases |notes|
  {
    if notes == [] {
      at := [];
    } else {
      var n := |notes| - 1;
      var front, note := notes[..n], notes[n];
      at := AtExactly(front, p);
      PicksSkip(front, note, at, At(front, p));
      PicksTake(front, note, at, At(front, p));
      assert notes == front + [note];
      if note.location == p {
        at := at + [n];
      }
    }
  }
}
