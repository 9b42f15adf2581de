/** Streamed tool calls arrive as fragments keyed by index; this module rebuilds the calls.
    The sender is described on its own, as a machine that cuts pieces off the calls it still has
    to send, so that reassembly is proved against something other than its own definition. */
module ToolAssembly {
  import opened IndexOrder

  datatype Call = Call(id: string, name: string, args: string)

  /** A string field of a JSON delta. A null one makes `+=` raise. */
  datatype Field = Absent | Null | Text(text: string)

  /** `id` is "" when the delta carries no usable id. */
  datatype Delta = Delta(index: int, id: string, name: Field, args: Field)

  function Piece(f: Field): string {
    if f.Text? then f.text else ""
  }

  predicate Clean(d: Delta) {
    !d.name.Null? && !d.args.Null?
  }

  predicate AllClean(ds: seq<Delta>) {
    forall d <- ds :: Clean(d)
  }

  // ---- the receiver ----

  function Step(acc: map<int, Call>, d: Delta): map<int, Call> {
    var c := if d.index in acc then acc[d.index] else Call(d.id, "", "");
    acc[d.index := Call(if d.id != "" then d.id else c.id, c.name + Piece(d.name), c.args + Piece(d.args))]
  }

  function AssembleFrom(acc: map<int, Call>, ds: seq<Delta>): map<int, Call>
    decreases |ds|
  {
    if ds == [] then acc else AssembleFrom(Step(acc, ds[0]), ds[1..])
  }

  function Assemble(ds: seq<Delta>): map<int, Call> {
    AssembleFrom(map[], ds)
  }

  lemma {:induction false} AssembleConcat(acc: map<int, Call>, a: seq<Delta>, b: seq<Delta>)
    ensures AssembleFrom(acc, a + b) == AssembleFrom(AssembleFrom(acc, a), b)
    decreases |a|
  {
    if a == [] {
      assert a + b == b;
    } else {
      assert (a + b)[0] == a[0] && (a + b)[1..] == a[1..] + b;
      AssembleConcat(Step(acc, a[0]), a[1..], b);
    }
  }

  /** Handles the fragments of one chunk, updating the dictionary as it goes; a null field raises. */
  method Absorb(acc0: map<int, Call>, ds: seq<Delta>) returns (acc: map<int, Call>, raised: bool)
    ensures raised <==> !AllClean(ds)
    ensures !raised ==> acc == AssembleFrom(acc0, ds)
  {
    acc, raised := acc0, false;
    for k := 0 to |ds|
      invariant !raised && AllClean(ds[..k])
      invariant AssembleFrom(acc, ds[k..]) == AssembleFrom(acc0, ds)
    {
      var d := ds[k];
      if d.name.Null? || d.args.Null? {
        assert ds[k] in ds && !Clean(ds[k]);
        raised := true;
        return;
      }
      assert ds[k..][0] == d && ds[k..][1..] == ds[k + 1..];
      assert ds[..k + 1] == ds[..k] + [d];
      acc := AddFragment(acc, d);
    }
    assert ds[..|ds|] == ds;
  }

  /** One fragment: a new index gets an entry, a usable id replaces the one known, the pieces are appended. */
  method AddFragment(acc0: map<int, Call>, d: Delta) returns (acc: map<int, Call>)
    ensures acc == Step(acc0, d)
  {
    acc := acc0;
    if d.index !in acc {
      acc := acc[d.index := Call(d.id, "", "")];
    }
    if d.id != "" {
      acc := acc[d.index := acc[d.index].(id := d.id)];
    }
    acc := acc[d.index := acc[d.index].(name := acc[d.index].name + Piece(d.name))];
    acc := acc[d.index := acc[d.index].(args := acc[d.index].args + Piece(d.args))];
  }

  // ---- index order ----

  function InOrder(acc: map<int, Call>, keys: seq<int>): (r: seq<Call>)
    requires forall i | 0 <= i < |keys| :: keys[i] in acc
    ensures |r| == |keys| && forall i | 0 <= i < |r| :: r[i] == acc[keys[i]]
  {
    seq(|keys|, i requires 0 <= i < |keys| => acc[keys[i]])
  }

  function Filled(c: Call): Call {
    if c.args == "" then c.(args := "{}") else c
  }

  function AllFilled(cs: seq<Call>): (r: seq<Call>)
    ensures |r| == |cs| && forall i | 0 <= i < |r| :: r[i] == Filled(cs[i])
  {
    seq(|cs|, i requires 0 <= i < |cs| => Filled(cs[i]))
  }

  /** What the loop hands on: calls in index order, empty arguments replaced by an empty object. */
  function Reassemble(acc: map<int, Call>): (r: seq<Call>)
    ensures |r| == |SortedKeys(acc.Keys)|
  {
    AllFilled(InOrder(acc, SortedKeys(acc.Keys)))
  }

  // ---- the sender ----

  /** What is still to be sent for one index; `announced` once some fragment carried the id. */
  datatype Outgoing = Outgoing(id: string, name: string, args: string, announced: bool)

  predicate IsPrefix(p: string, s: string) {
    p <= s
  }

  ghost predicate CanSend(left: map<int, Outgoing>, d: Delta) {
    && Clean(d)
    && d.index in left
    && var o := left[d.index];
    && (d.id == "" || d.id == o.id)
    && IsPrefix(Piece(d.name), o.name)
    && IsPrefix(Piece(d.args), o.args)
  }

  ghost function AfterSend(left: map<int, Outgoing>, d: Delta): map<int, Outgoing>
    requires CanSend(left, d)
  {
    var o := left[d.index];
    left[d.index := Outgoing(o.id, o.name[|Piece(d.name)|..], o.args[|Piece(d.args)|..],
                             o.announced || d.id == o.id)]
  }

  /** The fragments are one complete transmission of what is left, pieces of different indices
      interleaved at will. */
  ghost predicate Sends(ds: seq<Delta>, left: map<int, Outgoing>) {
    if ds == [] then
      forall i <- left :: left[i].name == "" && left[i].args == "" && left[i].announced
    else
      CanSend(left, ds[0]) && Sends(ds[1..], AfterSend(left, ds[0]))
  }

  ghost function Fresh(calls: map<int, Call>): map<int, Outgoing> {
    map i | i in calls :: Outgoing(calls[i].id, calls[i].name, calls[i].args, false)
  }

  /** What has arrived plus what is left is the call, for every index. */
  ghost predicate Splits(calls: map<int, Call>, acc: map<int, Call>, left: map<int, Outgoing>) {
    && acc.Keys <= calls.Keys == left.Keys
    && forall i <- calls ::
      && left[i].id == calls[i].id
      && (left[i].announced ==> i in acc && acc[i].id == calls[i].id)
      && (i in acc ==> acc[i].id == "" || acc[i].id == calls[i].id)
      && calls[i].name == (if i in acc then acc[i].name else "") + left[i].name
      && calls[i].args == (if i in acc then acc[i].args else "") + left[i].args
  }

  lemma SplitsStep(calls: map<int, Call>, acc: map<int, Call>, left: map<int, Outgoing>, d: Delta)
    requires Splits(calls, acc, left) && CanSend(left, d)
    ensures Splits(calls, Step(acc, d), AfterSend(left, d))
  {
    var o, n, a := left[d.index], Piece(d.name), Piece(d.args);
    var c := if d.index in acc then acc[d.index] else Call(d.id, "", "");
    assert o.name == n + o.name[|n|..];
    assert o.args == a + o.args[|a|..];
    assert c.name + o.name == (c.name + n) + o.name[|n|..];
    assert c.args + o.args == (c.args + a) + o.args[|a|..];
  }

  lemma {:induction false} TransmissionArrives(calls: map<int, Call>, acc: map<int, Call>,
                                               left: map<int, Outgoing>, ds: seq<Delta>)
    requires Splits(calls, acc, left) && Sends(ds, left)
    ensures AssembleFrom(acc, ds) == calls
    decreases |ds|
  {
    if ds == [] {
      forall i <- calls ensures i in acc && acc[i] == calls[i] {
        assert left[i].announced && left[i].name == "" && left[i].args == "";
        assert acc[i].name + "" == acc[i].name && acc[i].args + "" == acc[i].args;
      }
      assert acc == calls;
    } else {
      SplitsStep(calls, acc, left, ds[0]);
      TransmissionArrives(calls, Step(acc, ds[0]), AfterSend(left, ds[0]), ds[1..]);
    }
  }

  ghost function Keyed(idx: seq<int>, cs: seq<Call>): map<int, Call>
    requires |idx| == |cs| && Increasing(idx)
  {
    map k | k in idx :: cs[Position(idx, k)]
  }

  lemma FreshSplits(calls: map<int, Call>)
    ensures Splits(calls, map[], Fresh(calls))
  {
    forall i <- calls
      ensures calls[i].name == "" + Fresh(calls)[i].name && calls[i].args == "" + Fresh(calls)[i].args
    {
    }
  }

  lemma KeyedInOrder(idx: seq<int>, cs: seq<Call>)
    requires |idx| == |cs| && Increasing(idx)
    ensures Reassemble(Keyed(idx, cs)) == AllFilled(cs)
  {
    var calls := Keyed(idx, cs);
    SortedUnique(SortedKeys(calls.Keys), idx);
    forall i | 0 <= i < |cs| ensures calls[idx[i]] == cs[i] {
      PositionInverts(idx, i);
    }
  }

  /** Reassembly inverts fragmentation: whatever increasing indices the calls were given and
      however their fragments were cut and interleaved, the calls come back in index order, each
      with its id, its name and its arguments, for which an empty text becomes an empty object. */
  lemma RoundTrip(idx: seq<int>, cs: seq<Call>, ds: seq<Delta>)
    requires |idx| == |cs| && Increasing(idx)
    requires Sends(ds, Fresh(Keyed(idx, cs)))
    ensures var back := Reassemble(Assemble(ds));
      && |back| == |cs|
      && forall i | 0 <= i < |cs| ::
        && back[i].id == cs[i].id && back[i].name == cs[i].name
        && back[i].args == if cs[i].args == "" then "{}" else cs[i].args
  {
    FreshSplits(Keyed(idx, cs));
    TransmissionArrives(Keyed(idx, cs), map[], Fresh(Keyed(idx, cs)), ds);
    KeyedInOrder(idx, cs);
  }

  // ---- what any stream assembles to ----

  function NameSent(ds: seq<Delta>, i: int): string {
    if ds == [] then ""
    else
      var d := ds[|ds| - 1];
      NameSent(ds[..|ds| - 1], i) + if d.index == i && d.name.Text? then d.name.text else ""
  }

  function ArgsSent(ds: seq<Delta>, i: int): string {
    if ds == [] then ""
    else
      var d := ds[|ds| - 1];
      ArgsSent(ds[..|ds| - 1], i) + if d.index == i && d.args.Text? then d.args.text else ""
  }

  /** The last usable id sent for an index. */
  function IdSent(ds: seq<Delta>, i: int): string {
    if ds == [] then ""
    else
      var d := ds[|ds| - 1];
      if d.index == i && d.id != "" then d.id else IdSent(ds[..|ds| - 1], i)
  }

  predicate Mentions(ds: seq<Delta>, i: int) {
    exists k | 0 <= k < |ds| :: ds[k].index == i
  }

  /** Whether or not its ids agree, a stream's calls are the indices it mentions, each with its last
      usable id and its pieces in the order they came. */
  lemma {:induction false} AssembledFields(ds: seq<Delta>, i: int)
    ensures i in Assemble(ds) <==> Mentions(ds, i)
    ensures i in Assemble(ds) ==> Assemble(ds)[i] == Call(IdSent(ds, i), NameSent(ds, i), ArgsSent(ds, i))
    ensures i !in Assemble(ds) ==> IdSent(ds, i) == NameSent(ds, i) == ArgsSent(ds, i) == ""
  {
    if ds == [] {
    } else {
      var n := |ds| - 1;
      AssembledFields(ds[..n], i);
      AssembleConcat(map[], ds[..n], [ds[n]]);
      assert ds[..n] + [ds[n]] == ds;
      assert [ds[n]][1..] == [];
      assert AssembleFrom(Assemble(ds[..n]), [ds[n]]) == Step(Assemble(ds[..n]), ds[n]);
      assert Mentions(ds, i) <==> ds[n].index == i || Mentions(ds[..n], i) by {
        if k :| 0 <= k < |ds| && ds[k].index == i {
          assert k < n ==> ds[..n][k].index == i;
        }
      }
    }
  }

  // ---- every clean stream is a transmission of what it assembles to ----

  lemma {:induction false} AssembledGrows(acc: map<int, Call>, ds: seq<Delta>, i: int)
    requires i in acc
    ensures i in AssembleFrom(acc, ds)
    ensures acc[i].name <= AssembleFrom(acc, ds)[i].name
    ensures acc[i].args <= AssembleFrom(acc, ds)[i].args
    decreases |ds|
  {
    if ds == [] {
    } else {
      AssembledGrows(Step(acc, ds[0]), ds[1..], i);
    }
  }

  /** Each index keeps one id throughout. */
  ghost predicate IdsAgree(ds: seq<Delta>, calls: map<int, Call>) {
    forall k | 0 <= k < |ds| :: ds[k].index in calls && (ds[k].id == "" || ds[k].id == calls[ds[k].index].id)
  }

  /** `Splits`, with `announced` saying exactly whether the id has arrived. */
  ghost predicate SplitsExactly(calls: map<int, Call>, acc: map<int, Call>, left: map<int, Outgoing>) {
    && Splits(calls, acc, left)
    && forall i <- calls :: left[i].announced <==> i in acc && acc[i].id == calls[i].id
  }

  lemma PieceIsNext(before: string, piece: string, left: string, whole: string)
    requires whole == before + left && before + piece <= whole
    ensures piece <= left
  {
    assert forall k | 0 <= k < |piece| :: piece[k] == (before + piece)[|before| + k] == whole[|before| + k] == left[k];
  }

  lemma {:induction false} StreamTransmits(calls: map<int, Call>, acc: map<int, Call>,
                                           left: map<int, Outgoing>, ds: seq<Delta>)
    requires AllClean(ds) && IdsAgree(ds, calls) && SplitsExactly(calls, acc, left)
    requires AssembleFrom(acc, ds) == calls
    ensures Sends(ds, left)
    decreases |ds|
  {
    if ds == [] {
      forall i <- left ensures left[i].name == "" && left[i].args == "" && left[i].announced {
        assert |calls[i].name| == |acc[i].name| + |left[i].name|;
        assert |calls[i].args| == |acc[i].args| + |left[i].args|;
      }
    } else {
      var d := ds[0];
      assert d in ds && Clean(d);
      var c := if d.index in acc then acc[d.index] else Call(d.id, "", "");
      AssembledGrows(Step(acc, d), ds[1..], d.index);
      assert c.name + left[d.index].name == calls[d.index].name;
      assert c.args + left[d.index].args == calls[d.index].args;
      PieceIsNext(c.name, Piece(d.name), left[d.index].name, calls[d.index].name);
      PieceIsNext(c.args, Piece(d.args), left[d.index].args, calls[d.index].args);
      SplitsStep(calls, acc, left, d);
      StreamTransmits(calls, Step(acc, d), AfterSend(left, d), ds[1..]);
    }
  }

  /** The converse of the round trip: a stream of clean fragments whose ids agree is a transmission
      of exactly the calls rebuilt from it, so the sender above leaves out no readable stream. */
  lemma EveryStreamIsATransmission(ds: seq<Delta>)
    requires AllClean(ds) && IdsAgree(ds, Assemble(ds))
    ensures Sends(ds, Fresh(Assemble(ds)))
  {
    FreshSplits(Assemble(ds));
    StreamTransmits(Assemble(ds), map[], Fresh(Assemble(ds)), ds);
  }
}
