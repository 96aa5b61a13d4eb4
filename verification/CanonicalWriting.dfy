/** The writer that appends records to a growing text, and the method that drives it over a packet. */
module CanonicalWriting {
  import opened Prelude
  import opened Sorting
  import opened Numerals
  import opened CanonicalText
  import E = Evidence

  lemma EmitAllAppend(rs: seq<Record>, r: Record)
    ensures EmitAll(rs + [r]) == EmitAll(rs) + Emit(r)
  {
    EmitAllConcat(rs, [r]);
    EmitAllCons(r, []);
    assert [r] + [] == [r];
    assert EmitAll([]) == "";
  }

  class CanonicalWriter {
    var sb: string
    /** The records appended so far. */
    ghost var written: seq<Record>

    ghost predicate Valid()
      reads this
    {
      sb == EmitAll(written)
    }

    constructor ()
      ensures Valid() && written == []
    {
      sb, written := "", [];
    }

    method Emit(name: string, typed: string)
      requires Valid()
      modifies this
      ensures Valid() && written == old(written) + [Record(name, typed)]
    {
      EmitAllAppend(written, Record(name, typed));
      sb := sb + (Digits(|name|) + ":" + name + "=" + (Digits(|typed|) + ":" + typed) + "\n");
      written := written + [Record(name, typed)];
      assert CanonicalText.Emit(Record(name, typed))
          == Digits(|name|) + ":" + name + "=" + (Digits(|typed|) + ":" + typed) + "\n";
    }

    method Text(name: string, value: Option<string>)
      requires Valid()
      modifies this
      ensures Valid() && written == old(written) + [E.TextOrNull(name, value)]
    {
      Emit(name, if value.None? then "null:" else "str:" + value.value);
    }

    method Number(name: string, value: E.Double)
      requires Valid()
      modifies this
      ensures Valid() && written == old(written) + [E.Number(name, value)]
    {
      Emit(name, "num:" + value.roundTrip);
    }

    method Integer(name: string, value: Option<int>)
      requires Valid()
      modifies this
      ensures Valid() && written == old(written) + [E.IntegerOrNull(name, value)]
    {
      Emit(name, if value.None? then "null:" else "int:" + IntText(value.value));
    }

    method Money(name: string, value: Decimal)
      requires Valid()
      modifies this
      ensures Valid() && written == old(written) + [E.Money(name, value)]
    {
      var normalised := Normalise(value);
      Emit(name, "dec:" + DecimalText(normalised));
    }

    method Count(name: string, value: nat)
      requires Valid()
      modifies this
      ensures Valid() && written == old(written) + [E.Count(name, value)]
    {
      Emit(name, "cnt:" + Digits(value));
    }

    method Map(name: string, map_: E.Dictionary)
      requires Valid()
      modifies this
      ensures Valid() && written == old(written) + E.MapRecords(name, Sort(E.EntryLe, map_))
    {
      SortPermutes(E.EntryLe, map_);
      Emit(name, "cnt:" + Digits(|map_|));
      var entries := Sort(E.EntryLe, map_);
      for i := 0 to |entries|
        invariant Valid()
        invariant written == old(written) + ([E.Count(name, |entries|)] + E.EntryRecords(name, entries)[..i])
      {
        Emit(name + "{" + entries[i].key + "}", "str:" + entries[i].value);
        assert E.EntryRecords(name, entries)[..i + 1]
            == E.EntryRecords(name, entries)[..i] + [E.EntryRecord(name, entries[i])];
      }
      assert E.EntryRecords(name, entries)[..|entries|] == E.EntryRecords(name, entries);
    }

    method ToString() returns (text: string)
      requires Valid()
      ensures text == EmitAll(written)
    {
      text := sb;
    }
  }

  method WriteSource(w: CanonicalWriter, i: nat, source: E.EvidenceSource)
    requires w.Valid()
    modifies w
    ensures w.Valid() && w.written == old(w.written) + E.SourceBlock(i, source)
  {
    var prefix := "retrievedSources[" + Digits(i) + "]";
    w.Text(prefix + ".documentId", Some(source.documentId));
    w.Text(prefix + ".chunkId", Some(source.chunkId));
    w.Text(prefix + ".excerpt", Some(source.excerpt));
    w.Number(prefix + ".score", source.score);
  }

  method WriteSources(w: CanonicalWriter, sources: seq<E.EvidenceSource>)
    requires w.Valid()
    modifies w
    ensures w.Valid() && w.written == old(w.written) + E.SourceRecords(sources)
  {
    w.Count("retrievedSources", |sources|);
    for i := 0 to |sources|
      invariant w.Valid()
      invariant w.written == old(w.written) + ([E.Count("retrievedSources", |sources|)] + E.SourceBlocks(sources, i))
    {
      WriteSource(w, i, sources[i]);
    }
  }

  method WriteDecision(w: CanonicalWriter, d: E.RoutingDecisionSummary)
    requires w.Valid()
    modifies w
    ensures w.Valid() && w.written == old(w.written) + E.DecisionRecords(d)
  {
    ghost var before, all := w.written, E.DecisionRecords(d);
    w.Text("routingDecision.outcome", Some(d.outcome));
    w.Number("routingDecision.complexityScore", d.complexityScore);
    w.Money("routingDecision.costCeilingUsd", d.costCeilingUsd);
    assert w.written == before + all[..3];
    WriteSelection(w, d);
    assert all == all[..3] + all[3..];
  }

  method WriteSelection(w: CanonicalWriter, d: E.RoutingDecisionSummary)
    requires w.Valid()
    modifies w
    ensures w.Valid() && w.written == old(w.written) + E.DecisionRecords(d)[3..]
  {
    ghost var before, all := w.written, E.DecisionRecords(d);
    w.Text("routingDecision.selectedTier", d.selectedTier);
    w.Text("routingDecision.selectedDeployment", d.selectedDeployment);
    w.Text("routingDecision.selectedVendor", d.selectedVendor);
    assert w.written == before + [all[3], all[4], all[5]];
    ghost var half := w.written;
    w.Text("routingDecision.policySetId", d.policySetId);
    w.Integer("routingDecision.policySetVersion", d.policySetVersion);
    w.Text("routingDecision.rationale", Some(d.rationale));
    assert w.written == half + [all[6], all[7], all[8]];
    assert all[3..] == [all[3], all[4], all[5]] + [all[6], all[7], all[8]];
  }

  method WriteClaims(w: CanonicalWriter, claims: seq<string>)
    requires w.Valid()
    modifies w
    ensures w.Valid() && w.written == old(w.written) + E.ClaimRecords(claims)
  {
    w.Count("unattributableClaims", |claims|);
    ghost var all := E.ClaimRecords(claims);
    for i := 0 to |claims|
      invariant w.Valid()
      invariant w.written == old(w.written) + all[..i + 1]
    {
      w.Text("unattributableClaims[" + Digits(i) + "]", Some(claims[i]));
      assert all[..i + 2] == all[..i + 1] + [E.ClaimRecord(i, claims[i])];
    }
    assert all[..|claims| + 1] == all;
  }

  lemma Regroup<T>(a: seq<T>, b: seq<T>, c: seq<T>, d: seq<T>, e: seq<T>, f: seq<T>, g: seq<T>)
    ensures a + b + c + d + e + f + g == a + (b + (c + (d + (e + (f + g)))))
  {
    Associate(a, b, c + (d + (e + (f + g))));
    Associate(a + b, c, d + (e + (f + g)));
    Associate(a + b + c, d, e + (f + g));
    Associate(a + b + c + d, e, f + g);
    Associate(a + b + c + d + e, f, g);
  }

  method WriteHeader(w: CanonicalWriter, correlationId: string, lane: E.Lane)
    requires w.Valid()
    modifies w
    ensures w.Valid() && w.written == old(w.written) + E.HeaderRecords(correlationId, lane)
  {
    w.Text("form", Some(E.FORM));
    w.Text("correlationId", Some(correlationId));
    w.Text("lane", Some(E.LaneName(lane)));
  }

  method WriteAction(w: CanonicalWriter, action: E.ProposedAction)
    requires w.Valid()
    modifies w
    ensures w.Valid()
    ensures w.written == old(w.written) + E.ActionRecords(action)
                       + E.MapRecords("proposedAction.fields", Sort(E.EntryLe, action.fields))
  {
    ghost var before := w.written;
    w.Text("proposedAction.kind", Some(action.kind));
    w.Text("proposedAction.summary", Some(action.summary));
    assert w.written == before + E.ActionRecords(action);
    w.Map("proposedAction.fields", action.fields);
  }

  /** EvidencePacketHasher.Canonicalize. */
  method Canonicalize(packet: E.EvidencePacket) returns (text: string)
    ensures text == E.CanonicalForm(packet)
  {
    var w := new CanonicalWriter();
    WriteHeader(w, packet.correlationId, packet.lane);
    w.Map("inputs", packet.inputs);
    var sources := Sort(E.SourceLe, packet.retrievedSources);
    WriteSources(w, sources);
    WriteDecision(w, packet.routingDecision);
    WriteAction(w, packet.proposedAction);
    WriteClaims(w, packet.unattributableClaims);
    text := w.ToString();
    assert w.written == E.Records(packet) by {
      var header := E.HeaderRecords(packet.correlationId, packet.lane);
      assert [] + header == header;
      Regroup(header, E.MapRecords("inputs", Sort(E.EntryLe, packet.inputs)), E.SourceRecords(sources),
              E.DecisionRecords(packet.routingDecision), E.ActionRecords(packet.proposedAction),
              E.MapRecords("proposedAction.fields", Sort(E.EntryLe, packet.proposedAction.fields)),
              E.ClaimRecords(packet.unattributableClaims));
    }
  }
}
