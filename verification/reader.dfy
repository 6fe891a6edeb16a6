/** `ReadPorts` (package `ports`, reader.go): walks a top-level JSON object
    key by key and sends every entry whose body decodes as a `PortWithID`.

    The JSON tokenizer is not modelled. A document is given as what the
    tokenizer would deliver: whether the first token could be read, then one
    `Entry` per top-level key holding the key token and the outcome of
    decoding the value that follows it. Context cancellation is given as the
    first loop iteration at which `ctx.Err()` is non-nil; a cancelled context
    stays cancelled. Sending on the channel is appending to `emitted`. */
module PortReader {
  import opened Common
  import opened Ports

  /** A top-level key as `decoder.Token()` delivers it. */
  datatype KeyToken =
    | StringKey(id: string)         // a JSON string: the port ID
    | OtherToken(typeName: string)  // any other token; `typeName` is its Go type, as `%T` prints it
    | Unreadable                    // `Token()` returned an error

  /** The fields a JSON body sets; a field the body does not mention is `None`. */
  datatype Body = Body(
    city: Option<string>,
    coordinates: Option<seq<Float64>>,
    country: Option<string>,
    name: Option<string>,
    province: Option<string>)

  /** What `decoder.Decode` made of the value after a key. */
  datatype BodyOutcome = Decoded(body: Body) | Undecodable

  /** One top-level key and the value that follows it. */
  datatype Entry = Entry(key: KeyToken, value: BodyOutcome)

  /** The document as the decoder sees it. The kind of the first token is
      not recorded because `ReadPorts` never inspects it. */
  datatype Document = Document(firstToken: bool, entries: seq<Entry>)

  /** The error `ReadPorts` returns: a tokenizer error (for the first token
      or for a key), the context's error, or the error for a key that is not
      a string, whose text is
      `string type is expected for port keys, but got "<typeName>"`. */
  datatype ReadError = TokenError | Cancelled | KeyNotString(typeName: string)

  /** What one call produces: the ports sent, in order, and the error returned. */
  datatype ReadOutcome = ReadOutcome(emitted: seq<PortWithID>, err: Option<ReadError>)

  /** Decoding into the fresh zero value declared in each iteration: the
      fields the body sets are copied, the others stay empty, and nothing is
      carried over from an earlier entry. */
  function DecodeInto(b: Body): (p: Port)
    ensures b.city.Some? ==> p.city == b.city.value
    ensures b.coordinates.Some? ==> p.coordinates == b.coordinates.value
    ensures b.country.Some? ==> p.country == b.country.value
    ensures b.name.Some? ==> p.name == b.name.value
    ensures b.province.Some? ==> p.province == b.province.value
    ensures b.city.None? ==> p.city == ZeroPort.city
    ensures b.coordinates.None? ==> p.coordinates == ZeroPort.coordinates
    ensures b.country.None? ==> p.country == ZeroPort.country
    ensures b.name.None? ==> p.name == ZeroPort.name
    ensures b.province.None? ==> p.province == ZeroPort.province
  {
    Port(b.city.GetOr(""), b.coordinates.GetOr([]), b.country.GetOr(""), b.name.GetOr(""), b.province.GetOr(""))
  }

  /** Whether the context is already cancelled when the loop checks it
      before key `i`. */
  predicate CancelSeen(cancelAt: Option<nat>, i: nat)
  {
    cancelAt.Some? && cancelAt.value <= i
  }

  /** The loop gets past key `i`: no cancellation is seen and the key is a string. */
  predicate Passes(entries: seq<Entry>, cancelAt: Option<nat>, i: nat)
    requires i < |entries|
  {
    !CancelSeen(cancelAt, i) && entries[i].key.StringKey?
  }

  /** The error returned at a key the loop cannot get past; cancellation is
      checked before the key is read. */
  function StopError(entries: seq<Entry>, cancelAt: Option<nat>, i: nat): ReadError
    requires i < |entries| && !Passes(entries, cancelAt, i)
  {
    if CancelSeen(cancelAt, i) then Cancelled
    else if entries[i].key.Unreadable? then TokenError
    else KeyNotString(entries[i].key.typeName)
  }

  /** The first key at or after `from` the loop cannot get past, or
      `|entries|` when it gets past all of them. */
  function StopIndex(entries: seq<Entry>, cancelAt: Option<nat>, from: nat): (n: nat)
    requires from <= |entries|
    ensures from <= n <= |entries|
    ensures forall j :: from <= j < n ==> Passes(entries, cancelAt, j)
    ensures n < |entries| ==> !Passes(entries, cancelAt, n)
    decreases |entries| - from
  {
    if from == |entries| || !Passes(entries, cancelAt, from) then from
    else StopIndex(entries, cancelAt, from + 1)
  }

  /** What a single entry contributes to the output when the loop reaches it. */
  function Emitted(e: Entry): seq<PortWithID>
  {
    if e.key.StringKey? && e.value.Decoded? then [PortWithID(DecodeInto(e.value.body), e.key.id)] else []
  }

  /** The in-order subsequence of entries that carry a string key and a
      decodable body, each tagged with its own key. */
  function Emit(entries: seq<Entry>): seq<PortWithID>
    decreases |entries|
  {
    if entries == [] then [] else Emitted(entries[0]) + Emit(entries[1..])
  }

  /** The `for decoder.More()` loop from key `i` on: what it sends and the
      error it ends with. */
  function ReadKeys(entries: seq<Entry>, cancelAt: Option<nat>, i: nat): (r: ReadOutcome)
    requires i <= |entries|
    ensures var n := StopIndex(entries, cancelAt, i);
      && r.emitted == Emit(entries[i..n])
      && r.err == (if n == |entries| then None else Some(StopError(entries, cancelAt, n)))
    decreases |entries| - i
  {
    if i == |entries| then ReadOutcome([], None)
    else if CancelSeen(cancelAt, i) then ReadOutcome([], Some(Cancelled))
    else match entries[i].key
      case Unreadable => ReadOutcome([], Some(TokenError))
      case OtherToken(t) => ReadOutcome([], Some(KeyNotString(t)))
      case StringKey(_) =>
        var rest := ReadKeys(entries, cancelAt, i + 1);
        var n := StopIndex(entries, cancelAt, i);
        assert entries[i..n][1..] == entries[i + 1..n];
        ReadOutcome(Emitted(entries[i]) + rest.emitted, rest.err)
  }

  /** `ReadPorts`: consume the first token without checking that it opens an
      object, then run the key loop. The output is the emitted entries of the
      longest prefix of keys the loop gets past; the error is the one at the
      key where it stops, or none when it reaches the end of the object. */
  function ReadPorts(doc: Document, cancelAt: Option<nat>): (r: ReadOutcome)
    ensures !doc.firstToken ==> r == ReadOutcome([], Some(TokenError))
    ensures doc.firstToken ==> var n := StopIndex(doc.entries, cancelAt, 0);
      && r.emitted == Emit(doc.entries[..n])
      && r.err == (if n == |doc.entries| then None else Some(StopError(doc.entries, cancelAt, n)))
  {
    if !doc.firstToken then ReadOutcome([], Some(TokenError))
    else
      assert doc.entries[0..] == doc.entries;
      ReadKeys(doc.entries, cancelAt, 0)
  }

  /** `StopIndex` is pinned down by its contract: any index up to which every
      key passes and at which the loop stops is the stop index. */
  lemma StopIndexUnique(entries: seq<Entry>, cancelAt: Option<nat>, n: nat)
    requires n <= |entries|
    requires forall j :: 0 <= j < n ==> Passes(entries, cancelAt, j)
    requires n < |entries| ==> !Passes(entries, cancelAt, n)
    ensures StopIndex(entries, cancelAt, 0) == n
  {
  }

  /** Emitting distributes over concatenation: entries contribute independently and in order. */
  lemma {:induction false} EmitAppend(a: seq<Entry>, b: seq<Entry>)
    ensures Emit(a + b) == Emit(a) + Emit(b)
    decreases |a|
  {
    if a == [] {
      assert a + b == b;
    } else {
      assert (a + b)[0] == a[0];
      assert (a + b)[1..] == a[1..] + b;
      EmitAppend(a[1..], b);
    }
  }

  /** Every emitted port comes from an entry of its own: the entry's key is
      its ID and the entry's body is what it holds. */
  lemma {:induction false} EmitTagsOwnKey(entries: seq<Entry>, k: nat)
    requires k < |Emit(entries)|
    ensures exists j :: (0 <= j < |entries| && entries[j].key == StringKey(Emit(entries)[k].id)
      && entries[j].value.Decoded? && Emit(entries)[k].port == DecodeInto(entries[j].value.body))
    decreases |entries|
  {
    var head := Emitted(entries[0]);
    if k < |head| {
      assert entries[0].key == StringKey(Emit(entries)[k].id);
    } else {
      EmitTagsOwnKey(entries[1..], k - |head|);
      var j :| 0 <= j < |entries[1..]| && entries[1..][j].key == StringKey(Emit(entries[1..])[k - |head|].id)
        && entries[1..][j].value.Decoded? && Emit(entries[1..])[k - |head|].port == DecodeInto(entries[1..][j].value.body);
      assert entries[j + 1] == entries[1..][j];
    }
  }

  /** Every entry with a string key and a decodable body is emitted. */
  lemma {:induction false} EmitKeepsDecoded(entries: seq<Entry>, j: nat)
    requires j < |entries| && entries[j].key.StringKey? && entries[j].value.Decoded?
    ensures PortWithID(DecodeInto(entries[j].value.body), entries[j].key.id) in Emit(entries)
    decreases |entries|
  {
    if j > 0 {
      assert entries[1..][j - 1] == entries[j];
      EmitKeepsDecoded(entries[1..], j - 1);
    }
  }

  /** When the first token cannot be read, nothing is emitted and the
      tokenizer's error is returned, whatever follows. */
  lemma FirstTokenUnreadable(entries: seq<Entry>, cancelAt: Option<nat>)
    ensures ReadPorts(Document(false, entries), cancelAt) == ReadOutcome([], Some(TokenError))
  {
  }

  /** An empty object emits nothing and returns nil, even with a cancelled
      context: the loop body never runs. */
  lemma EmptyObject(cancelAt: Option<nat>)
    ensures ReadPorts(Document(true, []), cancelAt) == ReadOutcome([], None)
  {
  }

  /** Cancellation observed before key `k`: the context's error is returned
      and the output is exactly what the keys before `k` emitted. */
  lemma CancelledBeforeKey(entries: seq<Entry>, k: nat)
    requires k < |entries|
    requires forall j :: 0 <= j < k ==> entries[j].key.StringKey?
    ensures ReadPorts(Document(true, entries), Some(k)) == ReadOutcome(Emit(entries[..k]), Some(Cancelled))
  {
    StopIndexUnique(entries, Some(k), k);
  }

  /** A key that is not a string ends the read with an error at once; the
      output is what the keys before it emitted and nothing after it. */
  lemma NonStringKeyAborts(entries: seq<Entry>, cancelAt: Option<nat>, k: nat)
    requires k < |entries| && entries[k].key.OtherToken?
    requires forall j :: 0 <= j <= k ==> !CancelSeen(cancelAt, j)
    requires forall j :: 0 <= j < k ==> entries[j].key.StringKey?
    ensures ReadPorts(Document(true, entries), cancelAt)
      == ReadOutcome(Emit(entries[..k]), Some(KeyNotString(entries[k].key.typeName)))
  {
    StopIndexUnique(entries, cancelAt, k);
  }

  /** Without cancellation and with every key a string, the read succeeds and
      emits exactly the decodable entries, in document order. */
  lemma CleanReadEmitsAll(entries: seq<Entry>, cancelAt: Option<nat>)
    requires forall j :: 0 <= j < |entries| ==> entries[j].key.StringKey?
    requires cancelAt.Some? ==> cancelAt.value >= |entries|
    ensures ReadPorts(Document(true, entries), cancelAt) == ReadOutcome(Emit(entries), None)
  {
    StopIndexUnique(entries, cancelAt, |entries|);
    assert entries[..|entries|] == entries;
  }

  /** Where the loop stops once an undecodable entry is inserted after `a`,
      with no cancellation: at the same key if it stops inside `a`,
      otherwise one key later. */
  lemma SkipShiftsStop(a: seq<Entry>, id: string, b: seq<Entry>)
    ensures var n0 := StopIndex(a + b, None, 0);
      StopIndex(a + [Entry(StringKey(id), Undecodable)] + b, None, 0) == if n0 < |a| then n0 else n0 + 1
  {
    var long := a + [Entry(StringKey(id), Undecodable)] + b;
    var short := a + b;
    var n0 := StopIndex(short, None, 0);
    var n1 := if n0 < |a| then n0 else n0 + 1;
    forall j | 0 <= j < n1
      ensures Passes(long, None, j)
    {
      if j < |a| {
        assert long[j] == short[j];
        assert Passes(short, None, j);
      } else if j > |a| {
        assert long[j] == short[j - 1];
        assert Passes(short, None, j - 1);
      }
    }
    if n1 < |long| {
      assert long[n1] == short[n0];
    }
    StopIndexUnique(long, None, n1);
  }

  /** An undecodable entry inside the read prefix adds nothing to the output. */
  lemma SkipEmitsNothing(a: seq<Entry>, e: Entry, b: seq<Entry>, k: nat)
    requires e.value.Undecodable? && k <= |b|
    ensures Emit((a + [e] + b)[..|a| + 1 + k]) == Emit((a + b)[..|a| + k])
  {
    var mid := b[..k];
    assert (a + [e] + b)[..|a| + 1 + k] == a + [e] + mid;
    assert (a + b)[..|a| + k] == a + mid;
    EmitAppend(a + [e], mid);
    EmitAppend(a, [e]);
    EmitAppend(a, mid);
    assert Emit([e]) == [];
  }

  /** An entry whose body does not decode is skipped without error: when no
      cancellation is seen, the read behaves exactly as if the entry were not
      in the document. */
  lemma SkipUndecodable(a: seq<Entry>, id: string, b: seq<Entry>)
    ensures ReadPorts(Document(true, a + [Entry(StringKey(id), Undecodable)] + b), None)
      == ReadPorts(Document(true, a + b), None)
  {
    var e := Entry(StringKey(id), Undecodable);
    var long := a + [e] + b;
    var short := a + b;
    var n0 := StopIndex(short, None, 0);
    SkipShiftsStop(a, id, b);
    if n0 < |a| {
      assert long[n0] == short[n0];
      assert long[..n0] == short[..n0];
    } else {
      SkipEmitsNothing(a, e, b, n0 - |a|);
      if n0 < |short| {
        assert long[n0 + 1] == short[n0];
      }
    }
  }

  /** The unit test's document `{ "portID": { "name": "portName",
      "coordinates": [1.0, 2.0] } }`: exactly one port is sent, tagged
      `portID`, with the fields the body leaves out empty. */
  lemma SingleEntryDocument()
    ensures var one := 0x3FF0_0000_0000_0000;
      var two := 0x4000_0000_0000_0000;
      var body := Body(None, Some([one, two]), None, Some("portName"), None);
      ReadPorts(Document(true, [Entry(StringKey("portID"), Decoded(body))]), None)
        == ReadOutcome([PortWithID(Port("", [one, two], "", "portName", ""), "portID")], None)
  {
    var body := Body(None, Some([0x3FF0_0000_0000_0000, 0x4000_0000_0000_0000]), None, Some("portName"), None);
    CleanReadEmitsAll([Entry(StringKey("portID"), Decoded(body))], None);
  }
}
