/**
 * The diagnostics client: a cache of diagnostics per document with a set of documents whose list changed since it was
 * last published. A publish replaces the editor's earlier list for the document.
 */
module DiagClient {

  datatype Publish<Uri, Diag> = Publish(uri: Uri, diagnostics: seq<Diag>)

  /** What the editor shows for a document after a series of publishes. */
  function ClientView<Uri(==), Diag>(published: seq<Publish<Uri, Diag>>, uri: Uri): seq<Diag> {
    if published == [] then []
    else
      var last := published[|published| - 1];
      if last.uri == uri then last.diagnostics else ClientView(published[..|published| - 1], uri)
  }

  lemma ViewAfter<Uri, Diag>(published: seq<Publish<Uri, Diag>>, p: Publish<Uri, Diag>, uri: Uri)
    ensures ClientView(published + [p], uri) == if p.uri == uri then p.diagnostics else ClientView(published, uri)
  {
    assert (published + [p])[..|published|] == published;
  }

  /** The documents of a batch of publishes. */
  function Uris<Uri(==), Diag>(batch: seq<Publish<Uri, Diag>>): set<Uri> {
    set i | 0 <= i < |batch| :: batch[i].uri
  }

  lemma UrisAfter<Uri, Diag>(batch: seq<Publish<Uri, Diag>>, p: Publish<Uri, Diag>)
    ensures Uris(batch + [p]) == Uris(batch) + {p.uri}
  {
    var all := batch + [p];
    forall i | 0 <= i < |batch| ensures batch[i].uri in Uris(all) {
      assert all[i] == batch[i];
    }
    assert all[|batch|] == p;
  }

  ghost predicate AtMostOnce<Uri, Diag>(batch: seq<Publish<Uri, Diag>>) {
    forall i, j :: 0 <= i < j < |batch| ==> batch[i].uri != batch[j].uri
  }

  ghost predicate Shows<Uri, Diag>(batch: seq<Publish<Uri, Diag>>, lists: map<Uri, seq<Diag>>) {
    forall i :: 0 <= i < |batch| ==> batch[i].diagnostics == if batch[i].uri in lists then lists[batch[i].uri] else []
  }

  lemma SnocBatch<Uri, Diag>(batch: seq<Publish<Uri, Diag>>, p: Publish<Uri, Diag>, lists: map<Uri, seq<Diag>>)
    requires AtMostOnce(batch) && p.uri !in Uris(batch) && Shows(batch, lists)
    requires p.diagnostics == if p.uri in lists then lists[p.uri] else []
    ensures AtMostOnce(batch + [p]) && Shows(batch + [p], lists)
    ensures Uris(batch + [p]) == Uris(batch) + {p.uri}
  {
    UrisAfter(batch, p);
    forall i | 0 <= i < |batch| ensures batch[i].uri != p.uri {
      assert batch[i].uri in Uris(batch);
    }
  }

  /** A batch that publishes a document at most once, with list `list(uri)`, shows exactly those lists. */
  lemma {:induction false} BatchShows<Uri, Diag>(
    published: seq<Publish<Uri, Diag>>, batch: seq<Publish<Uri, Diag>>, uri: Uri, list: seq<Diag>)
    requires forall i :: 0 <= i < |batch| && batch[i].uri == uri ==> batch[i].diagnostics == list
    ensures ClientView(published + batch, uri)
         == if uri in Uris(batch) then list else ClientView(published, uri)
  {
    if batch == [] {
      assert published + batch == published;
    } else {
      var n := |batch| - 1;
      assert published + batch == (published + batch[..n]) + [batch[n]];
      ViewAfter(published + batch[..n], batch[n], uri);
      BatchShows(published, batch[..n], uri, list);
      UrisAfter(batch[..n], batch[n]);
      assert batch == batch[..n] + [batch[n]];
    }
  }

  datatype Op<Uri, Diag> =
    | Report(uri: Uri, diag: Diag)
    | Clear(uri: Uri)
    | ClearAll
    | ClearAndPush
    | PushPriority(uri: Uri)
    | Push

  /** The diagnostics reported for a document and not cleared since. */
  function Reported<Uri(==), Diag>(ops: seq<Op<Uri, Diag>>, uri: Uri): seq<Diag> {
    if ops == [] then []
    else
      var before := Reported(ops[..|ops| - 1], uri);
      match ops[|ops| - 1]
      case Report(u, d) => if u == uri then before + [d] else before
      case Clear(u) => if u == uri then [] else before
      case ClearAll => []
      case ClearAndPush => []
      case _ => before
  }

  /** Whether the document's list was touched since the last push. */
  function Touched<Uri(==), Diag>(ops: seq<Op<Uri, Diag>>, uri: Uri): bool {
    if ops == [] then false
    else
      var before := Touched(ops[..|ops| - 1], uri);
      match ops[|ops| - 1]
      case Report(u, _) => before || u == uri
      case Clear(u) => before || u == uri
      case ClearAll => before || Reported(ops[..|ops| - 1], uri) != []
      case _ => false
  }

  predicate Pushes<Uri, Diag>(op: Op<Uri, Diag>) {
    op.ClearAndPush? || op.PushPriority? || op.Push?
  }

  class ServerDiagClient<Uri(==,!new), Diag(==)> {
    var diagnostics: map<Uri, seq<Diag>>
    var dirtyUris: set<Uri>
    /** All that was sent to the editor. */
    var published: seq<Publish<Uri, Diag>>

    constructor ()
      ensures Valid() && diagnostics == map[] && dirtyUris == {} && published == []
    {
      diagnostics, dirtyUris, published := map[], {}, [];
    }

    function Stored(uri: Uri): seq<Diag>
      reads this
    {
      if uri in diagnostics then diagnostics[uri] else []
    }

    /** Outside the dirty set, the editor shows the stored list. */
    ghost predicate Valid()
      reads this
    {
      && (forall uri :: uri in diagnostics ==> diagnostics[uri] != [])
      && (forall uri :: uri !in dirtyUris ==> ClientView(published, uri) == Stored(uri))
    }

    /** Every document is shown as it is stored. */
    ghost predicate Agrees()
      reads this
    {
      dirtyUris == {} && forall uri :: ClientView(published, uri) == Stored(uri)
    }

    method Report(uri: Uri, diag: Diag)
      requires Valid()
      modifies this
      ensures Valid() && published == old(published)
      ensures dirtyUris == old(dirtyUris) + {uri}
      ensures forall u :: Stored(u) == if u == uri then old(Stored(u)) + [diag] else old(Stored(u))
    {
      dirtyUris := dirtyUris + {uri};
      diagnostics := diagnostics[uri := Stored(uri) + [diag]];
    }

    method Clear(uri: Uri)
      requires Valid()
      modifies this
      ensures Valid() && published == old(published)
      ensures dirtyUris == old(dirtyUris) + {uri}
      ensures forall u :: Stored(u) == if u == uri then [] else old(Stored(u))
    {
      if uri in diagnostics {
        diagnostics := diagnostics - {uri};
      }
      dirtyUris := dirtyUris + {uri};
    }

    method ClearAll()
      requires Valid()
      modifies this
      ensures Valid() && published == old(published)
      ensures forall u :: u in dirtyUris <==> u in old(dirtyUris) || old(Stored(u)) != []
      ensures diagnostics == map[]
    {
      dirtyUris := dirtyUris + diagnostics.Keys;
      diagnostics := map[];
    }

    /** Publishes each document of `uris` once, in no particular order, with its list in `lists`. */
    method PublishEach(uris: set<Uri>, lists: map<Uri, seq<Diag>>) returns (ghost batch: seq<Publish<Uri, Diag>>)
      modifies this`published
      ensures published == old(published) + batch
      ensures Uris(batch) == uris && AtMostOnce(batch)
      ensures Shows(batch, lists)
    {
      var todo := uris;
      batch := [];
      while todo != {}
        invariant published == old(published) + batch
        invariant todo <= uris && Uris(batch) == uris - todo && AtMostOnce(batch)
        invariant Shows(batch, lists)
        decreases |todo|
      {
        var uri :| uri in todo;
        var p := Publish(uri, if uri in lists then lists[uri] else []);
        published := published + [p];
        SnocBatch(batch, p, lists);
        batch := batch + [p];
        todo := todo - {uri};
      }
    }

    /** Tells the editor that every document, stored or dirty, has no diagnostics. */
    method ClearAndPush()
      requires Valid()
      modifies this
      ensures Valid() && Agrees() && diagnostics == map[]
      ensures forall uri :: ClientView(published, uri) == []
    {
      ghost var before := published;
      ghost var stored := PublishEach(diagnostics.Keys, map[]);
      ghost var between := published;
      ghost var dirty := PublishEach(dirtyUris, map[]);
      forall uri ensures ClientView(published, uri) == [] {
        BatchShows(before, stored, uri, []);
        BatchShows(between, dirty, uri, []);
      }
      diagnostics := map[];
      dirtyUris := {};
    }

    /** Publishes exactly the dirty documents, each once. */
    method PushDiags() returns (ghost batch: seq<Publish<Uri, Diag>>)
      requires Valid()
      modifies this
      ensures Valid() && Agrees() && diagnostics == old(diagnostics)
      ensures published == old(published) + batch
      ensures AtMostOnce(batch) && Uris(batch) == old(dirtyUris)
    {
      ghost var before := published;
      batch := PublishEach(dirtyUris, diagnostics);
      forall uri ensures ClientView(published, uri) == Stored(uri) {
        BatchShows(before, batch, uri, Stored(uri));
      }
      dirtyUris := {};
    }

    /** Publishes one document first, if it is stored or dirty, then the other dirty ones; none twice. */
    method PushDiagsPriority(priorityUri: Uri) returns (ghost batch: seq<Publish<Uri, Diag>>)
      requires Valid()
      modifies this
      ensures Valid() && Agrees() && diagnostics == old(diagnostics)
      ensures published == old(published) + batch && AtMostOnce(batch)
      ensures var first := priorityUri in old(dirtyUris) || old(Stored(priorityUri)) != [];
              && Uris(batch) == old(dirtyUris) + (if first then {priorityUri} else {})
              && (first ==> |batch| > 0 && batch[0].uri == priorityUri)
    {
      ghost var before := published;
      ghost var head: seq<Publish<Uri, Diag>> := [];
      if priorityUri in diagnostics {
        head := [Publish(priorityUri, diagnostics[priorityUri])];
        published := published + [Publish(priorityUri, diagnostics[priorityUri])];
        ViewsAfter(before, Publish(priorityUri, diagnostics[priorityUri]));
      } else if priorityUri in dirtyUris {
        head := [Publish(priorityUri, [])];
        published := published + [Publish(priorityUri, [])];
        ViewsAfter(before, Publish(priorityUri, []));
      }
      dirtyUris := dirtyUris - {priorityUri};
      ghost var rest := PushDiags();
      batch := head + rest;
      HeadAndRest(head, rest);
    }

    lemma ViewsAfter(before: seq<Publish<Uri, Diag>>, p: Publish<Uri, Diag>)
      ensures forall uri :: ClientView(before + [p], uri)
                         == if p.uri == uri then p.diagnostics else ClientView(before, uri)
    {
      forall uri
        ensures ClientView(before + [p], uri) == if p.uri == uri then p.diagnostics else ClientView(before, uri)
      {
        ViewAfter(before, p, uri);
      }
    }

    lemma HeadAndRest(head: seq<Publish<Uri, Diag>>, rest: seq<Publish<Uri, Diag>>)
      requires |head| <= 1 && AtMostOnce(rest)
      requires head != [] ==> head[0].uri !in Uris(rest)
      ensures AtMostOnce(head + rest) && Uris(head + rest) == Uris(rest) + Uris(head)
      ensures head != [] ==> Uris(head) == {head[0].uri}
    {
      var all := head + rest;
      forall i, j | 0 <= i < j < |all| ensures all[i].uri != all[j].uri {
        assert rest[j - |head|].uri in Uris(rest);
      }
      forall i | 0 <= i < |rest| ensures rest[i].uri in Uris(all) {
        assert all[|head| + i] == rest[i];
      }
      forall i | 0 <= i < |head| ensures head[i].uri in Uris(all) {
        assert all[i] == head[i];
      }
    }

    // ----- Histories -----

    /** The client is where the operations `ops` lead from a new one. */
    ghost predicate After(ops: seq<Op<Uri, Diag>>)
      reads this
    {
      && Valid()
      && (forall uri :: Stored(uri) == Reported(ops, uri))
      && (forall uri :: uri in dirtyUris <==> Touched(ops, uri))
    }

    method Perform(op: Op<Uri, Diag>, ghost ops: seq<Op<Uri, Diag>>)
      requires After(ops)
      modifies this
      ensures After(ops + [op])
      ensures Pushes(op) ==> Agrees()
    {
      assert (ops + [op])[..|ops|] == ops;
      match op
      case Report(uri, d) => Report(uri, d);
      case Clear(uri) => Clear(uri);
      case ClearAll => ClearAll();
      case ClearAndPush => ClearAndPush();
      case PushPriority(uri) =>
        ghost var batch := PushDiagsPriority(uri);
      case Push =>
        ghost var batch := PushDiags();
    }
  }

  /** After any operations, every untouched document is shown as reported; after a push, every document is. */
  method Replay<Uri(==,!new), Diag(==)>(ops: seq<Op<Uri, Diag>>) returns (c: ServerDiagClient<Uri, Diag>)
    ensures fresh(c) && c.After(ops)
    ensures forall uri :: !Touched(ops, uri) ==> ClientView(c.published, uri) == Reported(ops, uri)
    ensures ops != [] && Pushes(ops[|ops| - 1]) ==>
              forall uri :: ClientView(c.published, uri) == Reported(ops, uri)
  {
    c := new ServerDiagClient();
    var i := 0;
    while i < |ops|
      invariant 0 <= i <= |ops| && fresh(c) && c.After(ops[..i])
      invariant i > 0 && Pushes(ops[i - 1]) ==> c.Agrees()
    {
      assert ops[..i + 1] == ops[..i] + [ops[i]];
      c.Perform(ops[i], ops[..i]);
      i := i + 1;
    }
    assert ops[..i] == ops;
  }
}
