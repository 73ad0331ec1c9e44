/** Every error of decoding a row set with unique ids is the fault of some row on a way down from the
    roots, or of rows on no such way. */
module CodecFaults {
  import opened Values
  import opened Sequences
  import opened Domain
  import opened MessageRows
  import opened CodecBlocks
  import opened CodecMalformed
  import opened CodecAcceptance

  // ----- faults of one row -----

  /** The row, looked at as what is wanted, has what this error reports. */
  ghost predicate ShowsFault(lib: Library, rows: seq<Row>, row: Row, want: Want, error: CodecError) {
    var columns := row.columns;
    match error
    case WrongKind => (want == WantNode && columns.kind != KindForwardNode)
                      || (want == WantResolved && columns.kind != KindResolvedMessage)
    case PayloadNotObject => columns.payload.NotAnObject?
    case UnsupportedKind => want == WantSegment && !IsSegmentKind(columns.kind)
    case ManyResolved => want == WantSegment && columns.kind == KindReply && !OneResolved(rows, row)
    case MissingIdentity => (want != WantSegment && columns.author == NO_IDENTITY)
                            || (want == WantNode && columns.provenance == NO_PROVENANCE)
    case IncompleteIdentity =>
      want != WantSegment && columns.author != NO_IDENTITY && !CompleteIdentity(columns.author)
    case IncompleteProvenance =>
      want == WantNode && columns.provenance != NO_PROVENANCE && !CompleteProvenance(columns.provenance)
    case BadEnum => HasUnknownName(columns, want)
    case BadDatetime => want != WantSegment && columns.payload.Fields? && !HasTime(lib, columns.payload.values)
    case MissingField(field) =>
      && want == WantSegment && columns.payload.Fields? && field !in columns.payload.values
      && match columns.kind {
           case KindAt => field == FIsAll
           case KindReply => field == FResolutionStatus
           case KindForward => field == FResolved || field == FResolutionStatus
           case _ => false
         }
    case UnexpectedRelations => !ChildrenFit(rows, row)
    case _ => false
  }

  predicate CompleteIdentity(columns: IdentityColumns) {
    columns.platform.Some? && columns.source.Some? && columns.availability.Some?
  }

  predicate CompleteProvenance(columns: ProvenanceColumns) {
    columns.source.Some? && columns.forwardDepth.Some?
  }

  /** The status, or a source or availability of otherwise complete columns, is none of the known names. */
  ghost predicate HasUnknownName(columns: Columns, want: Want) {
    match want
    case WantSegment =>
      && columns.kind in {KindReply, KindForward} && columns.payload.Fields?
      && FResolutionStatus in columns.payload.values
      && !Readable(columns.kind, columns.payload.values[FResolved := Null])
    case WantNode =>
      || (CompleteIdentity(columns.author) && !HasIdentity(columns.author))
      || (CompleteProvenance(columns.provenance) && !HasProvenance(columns.provenance))
    case WantResolved => CompleteIdentity(columns.author) && !HasIdentity(columns.author)
  }

  lemma IdentityFaults(columns: IdentityColumns)
    ensures IdentityFrom(columns).Err? ==>
              || (IdentityFrom(columns).error == BadEnum && CompleteIdentity(columns) && !HasIdentity(columns))
              || (IdentityFrom(columns).error == IncompleteIdentity && !CompleteIdentity(columns))
  {
    IdentityExactly(columns);
  }

  lemma ProvenanceFaults(columns: ProvenanceColumns)
    ensures ProvenanceFrom(columns).Err? ==>
              || (ProvenanceFrom(columns).error == BadEnum && CompleteProvenance(columns) && !HasProvenance(columns))
              || (ProvenanceFrom(columns).error == IncompleteProvenance && !CompleteProvenance(columns))
  {
    ProvenanceExactly(columns);
  }

  lemma OpeningFaults(lib: Library, rows: seq<Row>, row: Row, want: Want)
    requires UniqueIds(rows) && KindFits(row.columns.kind, want) && Opening(lib, rows, row, want).Some?
    ensures ShowsFault(lib, rows, row, want, Opening(lib, rows, row, want).value)
  {
    hide IdentityFrom, ProvenanceFrom, DatetimeFrom, Related, HasIdentity, HasProvenance, HasTime, OneResolved, UniqueIds,
         Readable, ChildrenFit, CompleteIdentity, CompleteProvenance;
    IdentityFaults(row.columns.author);
    ProvenanceFaults(row.columns.provenance);
    OneResolvedExactly(rows, row);
    if row.columns.payload.Fields? {
      TimeExactly(lib, row.columns.payload);
    }
  }

  lemma AssembleFaults(lib: Library, rows: seq<Row>, row: Row, want: Want, lists: seq<seq<Item>>)
    requires UniqueIds(rows) && KindFits(row.columns.kind, want) && Opening(lib, rows, row, want).None?
    requires row.columns.payload.Fields? && Matches(lists, PartsOf(row.columns.kind))
    requires Assemble(lib, row, want, lists).Err?
    ensures ShowsFault(lib, rows, row, want, Assemble(lib, row, want, lists).error)
  {
    hide Related, ReplyStatusOf, ForwardStatusOf, IdentityFrom, ProvenanceFrom, DatetimeFrom, UniqueIds, ChildrenFit,
         OneResolved;
    if row.columns.payload.Get(FResolutionStatus).Str? {
      StatusesExactly(row.columns.payload.Get(FResolutionStatus).text);
    }
  }

  // ----- faults of the rows that are reached -----

  /** Some row on a way down from the roots shows this. */
  ghost predicate IsShownSomewhere(lib: Library, rows: seq<Row>, error: CodecError) {
    exists row, want, n: nat :: Reached(rows, row, want, n) && ShowsFault(lib, rows, row, want, error)
  }

  lemma {:induction false} RowFaults(lib: Library, rows: seq<Row>, row: Row, want: Want, n: nat, active: set<int>,
                                     consumed: set<int>)
    requires Keyed(rows) && UniqueIds(rows) && AllReached(rows, consumed)
    requires Reached(rows, row, want, n) && row in rows && row.id !in consumed && active <= consumed
    requires ParentClosed(rows, consumed) && (row.parent.Some? ==> row.parent.value in consumed)
    ensures var decoded := DecodeRow(lib, rows, row, want, active, consumed);
            decoded.Failed? ==> IsShownSomewhere(lib, rows, decoded.error)
    decreases IdsOf(rows) - consumed, 0, 0
  {
    hide Related, Opening, Assemble, Children, DecodeParts, PartsOf, UniqueIds, Matches, KindFits, Readable, Reached,
         RelationsDistinct, Sound, ChildrenFit, ShowsFault;
    ReachedIsRow(rows, row, want, n);
    assert row.id in IdsOf(rows);
    var parts, decoded := PartsOf(row.columns.kind), DecodeRow(lib, rows, row, want, active, consumed);
    if !KindFits(row.columns.kind, want) {
      KindFaults(lib, rows, row, want);
      assert IsShownSomewhere(lib, rows, WrongKind);
    } else if Opening(lib, rows, row, want).Some? {
      OpeningFaults(lib, rows, row, want);
      assert IsShownSomewhere(lib, rows, decoded.error);
    } else {
      PartsAreDistinct(row.columns.kind);
      forall r | r in rows && r.id in consumed + {row.id}
        ensures IsReached(rows, r)
      {
        assert r.id == row.id ==> r == row;
      }
      PartsFaults(lib, rows, row, want, n, parts, active + {row.id}, consumed + {row.id});
      var lists := DecodeParts(lib, rows, row.id, parts, active + {row.id}, consumed + {row.id});
      if lists.Done? {
        PartsAreSound(lib, rows, row, want, n, parts, active + {row.id}, consumed + {row.id});
        OpenedRow(lib, rows, row, want, active + {row.id}, consumed + {row.id});
        if Assemble(lib, row, want, lists.value).Err? {
          AssembleFaults(lib, rows, row, want, lists.value);
          assert IsShownSomewhere(lib, rows, decoded.error);
        } else if decoded.Failed? {
          ChildIsRow(rows, Some(row.id));
          StrayChild(lib, rows, row, want, lists.consumed);
          assert IsShownSomewhere(lib, rows, UnexpectedRelations);
        }
      }
    }
  }

  lemma KindFaults(lib: Library, rows: seq<Row>, row: Row, want: Want)
    requires !KindFits(row.columns.kind, want)
    ensures ShowsFault(lib, rows, row, want, WrongKind)
  {
  }

  /** A child that was not entered hangs under a relation its parent does not have. */
  lemma StrayChild(lib: Library, rows: seq<Row>, row: Row, want: Want, consumed: set<int>)
    requires ChildrenSettled(lib, rows, row.id, PartsOf(row.columns.kind), consumed)
    requires exists child :: child in rows && child.parent == Some(row.id) && child.id !in consumed
    ensures ShowsFault(lib, rows, row, want, UnexpectedRelations)
  {
    hide Sound, PartsOf;
    var child :| child in rows && child.parent == Some(row.id) && child.id !in consumed;
    RelationsExactly(row.columns.kind, child.columns.relation);
    var parts := PartsOf(row.columns.kind);
    forall i | 0 <= i < |parts|
      ensures parts[i].relation != child.columns.relation
    {
    }
    assert !RelationOf(parts, child.columns.relation);
  }

  lemma {:induction false} PartsFaults(lib: Library, rows: seq<Row>, up: Row, upWant: Want, n: nat, parts: seq<Part>,
                                       active: set<int>, consumed: set<int>)
    requires Keyed(rows) && UniqueIds(rows) && AllReached(rows, consumed)
    requires Reached(rows, up, upWant, n) && active <= consumed && up.id in consumed
    requires ParentClosed(rows, consumed) && RelationsDistinct(parts) && Untaken(rows, up.id, parts, consumed)
    requires forall part | part in parts :: part in PartsOf(up.columns.kind)
    ensures var decoded := DecodeParts(lib, rows, up.id, parts, active, consumed);
            decoded.Failed? ==> IsShownSomewhere(lib, rows, decoded.error)
    decreases IdsOf(rows) - consumed, 2, |parts|
  {
    hide Related, DecodeRows, PartsOf, UniqueIds, Reached, IsReached, AllReached, RelationsDistinct, Untaken,
         Sorted, Settled, Sound, Keyed, ParentClosed, NewUnder, IsShownSomewhere;
    if parts != [] {
      RelatedIsRow(rows, Some(up.id), parts[0].relation);
      FirstPartIsUntaken(rows, up.id, parts, consumed);
      var list := Related(rows, Some(up.id), parts[0].relation);
      forall r | r in list
        ensures Reached(rows, r, parts[0].want, n + 1)
      {
        ChildIsReached(rows, up, upWant, n, parts[0], r);
      }
      RowsFaults(lib, rows, list, Some(up.id), parts[0].want, n + 1, active, consumed);
      RowsEnterOnce(lib, rows, list, Some(up.id), parts[0].want, active, consumed);
      RowsAreSound(lib, rows, list, parts[0].want, n + 1, active, consumed);
      var head := DecodeRows(lib, rows, list, parts[0].want, active, consumed);
      if head.Done? {
        OtherPartsAreUntaken(rows, up.id, parts, consumed, head.consumed);
        PartsFaults(lib, rows, up, upWant, n, parts[1..], active, head.consumed);
      }
    }
  }

  lemma {:induction false} RowsFaults(lib: Library, rows: seq<Row>, list: seq<Row>, parent: Option<int>, want: Want,
                                      n: nat, active: set<int>, consumed: set<int>)
    requires Keyed(rows) && UniqueIds(rows) && AllReached(rows, consumed)
    requires active <= consumed && ParentClosed(rows, consumed) && (parent.Some? ==> parent.value in consumed)
    requires Sorted(list) && forall r | r in list :: r in rows && r.parent == parent && r.id !in consumed
    requires forall r | r in list :: Reached(rows, r, want, n)
    ensures var decoded := DecodeRows(lib, rows, list, want, active, consumed);
            decoded.Failed? ==> IsShownSomewhere(lib, rows, decoded.error)
    decreases IdsOf(rows) - consumed, 1, |list|
  {
    hide DecodeRow, UniqueIds, Keyed, Reached, IsReached, AllReached, Settled, Sound, ParentClosed, IsShownSomewhere;
    if list != [] {
      MemberOfCons(list);
      RowFaults(lib, rows, list[0], want, n, active, consumed);
      RowEntersOnce(lib, rows, list[0], want, active, consumed);
      RowIsSound(lib, rows, list[0], want, n, active, consumed);
      var head := DecodeRow(lib, rows, list[0], want, active, consumed);
      if head.Done? {
        forall r | r in list[1..]
          ensures r.id !in head.consumed
        {
          assert r.id != list[0].id;
        }
        RowsFaults(lib, rows, list[1..], parent, want, n, active, head.consumed);
      }
    }
  }

  /** Decoding never reports what is not there: rows left over, or the fault of a row on a way down from
      the roots. */
  lemma ErrorsAreTrue(lib: Library, rows: seq<Row>)
    requires UniqueIds(rows) && DecodeTree(lib, rows).Err?
    ensures if DecodeTree(lib, rows).error == OrphanedRows then exists row | row in rows :: !IsReached(rows, row)
            else IsShownSomewhere(lib, rows, DecodeTree(lib, rows).error)
  {
    hide DecodeRows, Related, Sorted, Sound, Settled, UniqueIds, Keyed, IsReached, IsShownSomewhere, Walkable;
    var list := Related(rows, None, RelSegments);
    RelatedIsRow(rows, None, RelSegments);
    RelatedIsSorted(rows, None, RelSegments);
    UniqueIsKeyed(rows);
    forall r | r in list
      ensures Reached(rows, r, WantSegment, 0)
    {
    }
    RowsFaults(lib, rows, list, None, WantSegment, 0, {}, {});
    DecodesExactly(lib, rows);
  }
}
