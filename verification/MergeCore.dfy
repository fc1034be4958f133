/** The argument behind both heap merges, the query's (newest layer first) and the compactor's (newest
file last): one invariant relating what a merge has emitted to what its inputs still hold, and the two
steps that keep it. */
module MergeCore {
  import opened Rows

  /** Layer `i` heads the least row left, and no newer layer heads the same time. */
  predicate LeastHead(rest: seq<Batch>, i: nat) {
    && i < |rest| && rest[i] != []
    && forall j :: 0 <= j < |rest| && rest[j] != [] ==>
         rest[i][0].time < rest[j][0].time || (rest[i][0].time == rest[j][0].time && i <= j)
  }

  function Total<T>(parts: seq<seq<T>>): (n: nat) {
    if parts == [] then 0 else Total(parts[..|parts| - 1]) + |parts[|parts| - 1]|
  }

  lemma {:induction false} TotalUpdate<T>(parts: seq<seq<T>>, i: nat, part: seq<T>)
    requires i < |parts|
    ensures Total(parts[i := part]) == Total(parts) - |parts[i]| + |part|
  {
    var n := |parts| - 1;
    if i == n {
      assert parts[i := part][..n] == parts[..n];
    } else {
      TotalUpdate(parts[..n], i, part);
      assert parts[i := part][..n] == parts[..n][i := part];
    }
  }

  /** What is known between steps about rows already out and rows still to come: the output is
      ascending up to `last`, nothing left is older than `last`, and output over the rest means
      exactly what the input layers mean. */
  ghost predicate Progress(layers: seq<Batch>, rest: seq<Batch>, out: Batch, last: Option<int>) {
    && StrictlyAscending(out)
    && (last.None? <==> out == [])
    && (out != [] ==> last == Some(out[|out| - 1].time))
    && (forall i :: 0 <= i < |rest| ==> Ascending(rest[i]))
    && (last.Some? ==> forall i, k :: 0 <= i < |rest| && 0 <= k < |rest[i]| ==> last.value <= rest[i][k].time)
    && NewestWins(layers) == NewestWins(rest) + LastWrite(out)
  }

  lemma StartProgress(layers: seq<Batch>)
    requires forall i :: 0 <= i < |layers| ==> Ascending(layers[i])
    ensures Progress(layers, layers, [], None)
  {
    assert NewestWins(layers) + map[] == NewestWins(layers);
  }

  /** Once nothing is left, the rows kept list the meaning of the input layers. */
  lemma EndProgress(layers: seq<Batch>, rest: seq<Batch>, out: Batch, last: Option<int>)
    requires Progress(layers, rest, out, last)
    requires forall i :: 0 <= i < |rest| ==> rest[i] == []
    ensures Lists(out, NewestWins(layers))
  {
    LaterWinsEmpty(Reverse(rest));
    assert map[] + LastWrite(out) == LastWrite(out);
  }

  lemma ReverseUpdate<T>(s: seq<T>, i: nat, x: T)
    requires i < |s|
    ensures Reverse(s[i := x]) == Reverse(s)[|s| - 1 - i := x]
  {
  }

  lemma NewestDropHead(rest: seq<Batch>, i: nat)
    requires i < |rest| && rest[i] != []
    ensures SameExcept(NewestWins(rest), NewestWins(rest[i := rest[i][1..]]), rest[i][0].time)
    ensures (forall j :: 0 <= j < i ==> rest[i][0].time !in FirstWrite(rest[j]))
            ==> rest[i][0].time in NewestWins(rest)
                && NewestWins(rest)[rest[i][0].time] == rest[i][0].value
  {
    ReverseUpdate(rest, i, rest[i][1..]);
    DropHead(Reverse(rest), |rest| - 1 - i);
  }

  lemma OutputCovers(out: Batch)
    requires out != []
    ensures out[|out| - 1].time in LastWrite(out)
  {
  }

  /** A row at the time just emitted is a shadowed duplicate: skipping it loses nothing. */
  lemma SkipDuplicate(layers: seq<Batch>, rest: seq<Batch>, out: Batch, last: Option<int>, i: nat)
    requires Progress(layers, rest, out, last)
    requires i < |rest| && rest[i] != [] && last == Some(rest[i][0].time)
    ensures Progress(layers, rest[i := rest[i][1..]], out, last)
  {
    NewestDropHead(rest, i);
    OutputCovers(out);
    OverlayHides(NewestWins(rest), NewestWins(rest[i := rest[i][1..]]), LastWrite(out), rest[i][0].time);
  }

  /** The least head, taken from the newest layer that has it, is what the layers show at its time. */
  lemma LeastHeadShows(rest: seq<Batch>, i: nat)
    requires LeastHead(rest, i) && forall j :: 0 <= j < |rest| ==> Ascending(rest[j])
    ensures rest[i][0].time in NewestWins(rest) && NewestWins(rest)[rest[i][0].time] == rest[i][0].value
    ensures forall j, k :: 0 <= j < |rest| && 0 <= k < |rest[j]| ==> rest[i][0].time <= rest[j][k].time
  {
    forall j | 0 <= j < i
      ensures rest[i][0].time !in FirstWrite(rest[j])
    {
      WriteKeys(rest[j]);
    }
    NewestDropHead(rest, i);
  }

  /** So it is the next row of the answer. */
  lemma EmitLeast(layers: seq<Batch>, rest: seq<Batch>, out: Batch, last: Option<int>, i: nat)
    requires Progress(layers, rest, out, last)
    requires i < |rest| && rest[i] != [] && LeastHead(rest, i) && last != Some(rest[i][0].time)
    ensures Progress(layers, rest[i := rest[i][1..]], out + [rest[i][0]], Some(rest[i][0].time))
  {
    hide NewestWins, LeastHead, LastWrite;
    var r, out' := rest[i][0], out + [rest[i][0]];
    var rest': seq<Batch> := rest[i := rest[i][1..]];
    LeastHeadShows(rest, i);
    NewestDropHead(rest, i);
    AppendNewest(out, r);
    OverlayHides(NewestWins(rest), NewestWins(rest'), LastWrite(out'), r.time);
    assert NewestWins(rest) + LastWrite(out) == NewestWins(rest) + LastWrite(out');
  }

  lemma AppendNewest(out: Batch, r: Row)
    requires forall k :: 0 <= k < |out| ==> out[k].time < r.time
    ensures r.time !in LastWrite(out) && LastWrite(out + [r]) == LastWrite(out)[r.time := r.value]
  {
    WriteKeys(out);
    assert (out + [r])[..|out|] == out;
  }

  // ----- inputs that may not be ascending -----

  predicate AllAscending(layers: seq<Batch>) {
    forall i :: 0 <= i < |layers| ==> Ascending(layers[i])
  }

  /** Progress, provided the merge was given what it expects. */
  ghost predicate Tracks(layers: seq<Batch>, rest: seq<Batch>, out: Batch, last: Option<int>) {
    AllAscending(layers) ==> Progress(layers, rest, out, last)
  }

  lemma TrackSkip(layers: seq<Batch>, rest: seq<Batch>, out: Batch, last: Option<int>, i: nat)
    requires Tracks(layers, rest, out, last)
    requires i < |rest| && rest[i] != [] && last == Some(rest[i][0].time)
    ensures Tracks(layers, rest[i := rest[i][1..]], out, last)
  {
    hide Progress, AllAscending;
    if AllAscending(layers) {
      SkipDuplicate(layers, rest, out, last, i);
    }
  }

  lemma TrackEmit(layers: seq<Batch>, rest: seq<Batch>, out: Batch, last: Option<int>, i: nat)
    requires Tracks(layers, rest, out, last) && LeastHead(rest, i) && last != Some(rest[i][0].time)
    ensures Tracks(layers, rest[i := rest[i][1..]], out + [rest[i][0]], Some(rest[i][0].time))
  {
    hide Progress, AllAscending;
    if AllAscending(layers) {
      EmitLeast(layers, rest, out, last, i);
    }
  }
}
