/** The round trip: exporting, restoring under another identity, and exporting again. */
module RecordRoundTrip {
  import opened Wrappers
  import opened Ordering
  import opened Records
  import opened RecordArchives
  import opened RecordTransfers

  // ---- A second export sees what the first one did ----

  lemma {:induction false} SameHistories(s: Store, u: Store, ids: seq<Id>)
    requires Listed(s, ids) && Listed(u, ids)
    requires forall i :: 0 <= i < |ids| ==> s.records[ids[i]].revision == u.records[ids[i]].revision
    requires forall id, n: nat :: id in ids && (id, n) in s.revisions ==>
               (id, n) in u.revisions && u.revisions[(id, n)] == s.revisions[(id, n)]
    ensures HistoriesOf(u, ids) == HistoriesOf(s, ids)
  {
    if ids != [] {
      var shorter, last := ids[..|ids| - 1], ids[|ids| - 1];
      assert forall x :: x in shorter ==> x in ids;
      SameHistories(s, u, shorter);
      assert HistoryRows(u, last, u.records[last].revision) == HistoryRows(s, last, s.records[last].revision);
    }
  }

  /** Two stores hold the same receipts, each under its own identity. */
  ghost predicate SameReceipts(s: Store, project: string, workspace: string, u: Store, project': string,
                               workspace': string) {
    forall h, q ::
      var (k, k') := (ImportKey(project, workspace, h, q), ImportKey(project', workspace', h, q));
      && (k in s.imports <==> k' in u.imports)
      && (k in s.imports ==> s.imports[k] == u.imports[k'])
  }

  lemma SameReceiptsFor(s: Store, project: string, workspace: string, u: Store, project': string, workspace': string,
                        hash: string)
    requires SameReceipts(s, project, workspace, u, project', workspace')
    ensures ReceiptsFor(u, project', workspace', hash) == ReceiptsFor(s, project, workspace, hash)
  {
    var parsers, parsers' := ImportParsers(s, project, workspace, hash), ImportParsers(u, project', workspace', hash);
    forall q ensures q in parsers <==> q in parsers' {
      assert q in parsers <==> ImportKey(project, workspace, hash, q) in s.imports;
      assert q in parsers' <==> ImportKey(project', workspace', hash, q) in u.imports;
    }
    assert parsers == parsers';
    ParsersListed(s, project, workspace, hash);
    var order := InOrder(parsers);
    forall i | 0 <= i < |order| ensures
      s.imports[ImportKey(project, workspace, hash, order[i])]
          == u.imports[ImportKey(project', workspace', hash, order[i])] {
      assert order[i] in order;
    }
  }

  lemma {:induction false} SameReceiptsOf(s: Store, project: string, workspace: string, u: Store, project': string,
                                          workspace': string, hashes: seq<string>)
    requires SameReceipts(s, project, workspace, u, project', workspace')
    ensures ReceiptsOf(u, project', workspace', hashes) == ReceiptsOf(s, project, workspace, hashes)
  {
    if hashes != [] {
      SameReceiptsOf(s, project, workspace, u, project', workspace', hashes[..|hashes| - 1]);
      SameReceiptsFor(s, project, workspace, u, project', workspace', hashes[|hashes| - 1]);
    }
  }

  lemma SameHashes(s: Store, project: string, workspace: string, u: Store, project': string, workspace': string)
    requires SameReceipts(s, project, workspace, u, project', workspace')
    ensures ImportHashes(u, project', workspace') == ImportHashes(s, project, workspace)
  {
    forall h ensures h in ImportHashes(s, project, workspace) <==> h in ImportHashes(u, project', workspace') {
      if h in ImportHashes(s, project, workspace) {
        var k :| k in s.imports && k.project == project && k.workspace == workspace && k.sourceHash == h;
        assert ImportKey(project, workspace, h, k.parserRevision) == k;
        assert ImportKey(project', workspace', h, k.parserRevision) in u.imports;
      }
      if h in ImportHashes(u, project', workspace') {
        var k :| k in u.imports && k.project == project' && k.workspace == workspace' && k.sourceHash == h;
        assert ImportKey(project', workspace', h, k.parserRevision) == k;
        assert ImportKey(project, workspace, h, k.parserRevision) in s.imports;
      }
    }
  }

  lemma RestoredReceipts(s: Store, project: string, workspace: string, t: Store, project': string, workspace': string)
    requires Inv(s) && Inv(t) && OwnedIds(t, project', workspace') == {}
    ensures SameReceipts(s, project, workspace, Merged(t, project', workspace', ExportOf(s, project, workspace)),
        project', workspace')
  {
    var a := ExportOf(s, project, workspace);
    var u := Merged(t, project', workspace', a);
    ExportReceipts(s, project, workspace);
    ExportValid(s, project, workspace);
    forall h, q ensures
      var (k, k') := (ImportKey(project, workspace, h, q), ImportKey(project', workspace', h, q));
      && (k in s.imports <==> k' in u.imports) && (k in s.imports ==> s.imports[k] == u.imports[k'])
    {
      var k, k' := ImportKey(project, workspace, h, q), ImportKey(project', workspace', h, q);
      EmptyIdentity(t, project', workspace', k');
      if k in s.imports {
        assert h in ImportHashes(s, project, workspace);
        var i := ByImportFrom(a.imports, project, workspace, k);
        ByImportHas(a.imports, project', workspace', i);
      }
      if k' in u.imports {
        var i := ByImportFrom(a.imports, project', workspace', k');
        ByImportHas(a.imports, project, workspace, i);
      }
    }
  }

  lemma MovedOwned(s: Store, project: string, workspace: string, t: Store, project': string, workspace': string,
                   u: Store)
    requires OwnedIds(t, project', workspace') == {}
    requires u.records == t.records + RebaseRows(OwnedRows(s, project, workspace), project', workspace')
    ensures OwnedIds(u, project', workspace') == OwnedIds(s, project, workspace)
    ensures forall id :: id in OwnedIds(s, project, workspace) ==>
              u.records[id] == Rebase(s.records[id], project', workspace')
  {
    var moved := RebaseRows(OwnedRows(s, project, workspace), project', workspace');
    forall id ensures id in OwnedIds(u, project', workspace') <==> id in OwnedIds(s, project, workspace) {
      if id in t.records && id !in moved { assert id !in OwnedIds(t, project', workspace'); }
    }
  }

  /** The restored identity owns exactly the exported records. */
  lemma RestoredOwned(s: Store, project: string, workspace: string, t: Store, project': string, workspace': string)
    requires Inv(s) && OwnedIds(t, project', workspace') == {}
    ensures var u := Merged(t, project', workspace', ExportOf(s, project, workspace));
      && OwnedIds(u, project', workspace') == OwnedIds(s, project, workspace)
      && forall id :: id in OwnedIds(s, project, workspace) ==>
           u.records[id] == Rebase(s.records[id], project', workspace')
  {
    ExportRows(s, project, workspace);
    MovedOwned(s, project, workspace, t, project', workspace',
        Merged(t, project', workspace', ExportOf(s, project, workspace)));
  }

  lemma RestoredRows(s: Store, project: string, workspace: string, t: Store, project': string, workspace': string)
    requires Inv(s) && OwnedIds(t, project', workspace') == {}
    requires Inv(Merged(t, project', workspace', ExportOf(s, project, workspace)))
    ensures var u := Merged(t, project', workspace', ExportOf(s, project, workspace));
      ExportOf(u, project', workspace').records
          == RebaseAll(ExportOf(s, project, workspace).records, project', workspace')
  {
    var a := ExportOf(s, project, workspace);
    var u := Merged(t, project', workspace', a);
    RestoredOwned(s, project, workspace, t, project', workspace');
    var ids := InOrder(OwnedIds(s, project, workspace));
    var rows, rows' := ExportOf(u, project', workspace').records, RebaseAll(a.records, project', workspace');
    forall i | 0 <= i < |ids| ensures rows[i] == rows'[i] { assert ids[i] in ids; }
  }

  lemma RestoredImports(s: Store, project: string, workspace: string, t: Store, project': string, workspace': string)
    requires Inv(s) && Inv(t) && OwnedIds(t, project', workspace') == {}
    requires Inv(Merged(t, project', workspace', ExportOf(s, project, workspace)))
    ensures var u := Merged(t, project', workspace', ExportOf(s, project, workspace));
      ExportOf(u, project', workspace').imports == ExportOf(s, project, workspace).imports
  {
    var u := Merged(t, project', workspace', ExportOf(s, project, workspace));
    RestoredReceipts(s, project, workspace, t, project', workspace');
    SameHashes(s, project, workspace, u, project', workspace');
    SameReceiptsOf(s, project, workspace, u, project', workspace', InOrder(ImportHashes(s, project, workspace)));
  }

  lemma RestoredHistories(s: Store, project: string, workspace: string, t: Store, project': string, workspace': string)
    requires Inv(s) && Inv(t) && OwnedIds(t, project', workspace') == {}
    requires Inv(Merged(t, project', workspace', ExportOf(s, project, workspace)))
    ensures var u := Merged(t, project', workspace', ExportOf(s, project, workspace));
      ExportOf(u, project', workspace').revisions == ExportOf(s, project, workspace).revisions
  {
    var u := Merged(t, project', workspace', ExportOf(s, project, workspace));
    var ids := InOrder(OwnedIds(s, project, workspace));
    RestoredOwned(s, project, workspace, t, project', workspace');
    ExportHistories(s, project, workspace);
    OwnedListed(u, project', workspace');
    forall i | 0 <= i < |ids| ensures s.records[ids[i]].revision == u.records[ids[i]].revision { assert ids[i] in ids; }
    SameHistories(s, u, ids);
  }

  /** Export passes validation, restores into any empty identity without clashing ids, and exports the same again. */
  lemma RestoreRoundTrip(s: Store, project: string, workspace: string, t: Store, project': string, workspace': string)
    requires Inv(s) && Inv(t) && project' != "" && workspace' != ""
    requires Size(ExportOf(s, project, workspace)) <= MAX_ITEMS
    requires OwnedIds(t, project', workspace') == {} && OwnedIds(s, project, workspace) !! t.records.Keys
    ensures var a := ExportOf(s, project, workspace);
      && ArchiveValid(a)
      && Restore(t, project', workspace', a).Ok?
      && var u := Restore(t, project', workspace', a).value;
         && Inv(u) && Appends(t, u)
         && ExportOf(u, project', workspace') == a.(records := RebaseAll(a.records, project', workspace'))
  {
    var a := ExportOf(s, project, workspace);
    ExportValid(s, project, workspace);
    ExportRestorable(s, project, workspace, t, project', workspace');
    RestoreKeeps(t, project', workspace', a);
    RestoredRows(s, project, workspace, t, project', workspace');
    RestoredHistories(s, project, workspace, t, project', workspace');
    RestoredImports(s, project, workspace, t, project', workspace');
  }
}
