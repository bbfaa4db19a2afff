/**
 * `extrair_processos` (listar_processos_sei.py:633-658): the records of the
 * "Recebidos" table, then those of the "Gerados" table, keeping only records
 * with an `id_procedimento` not met before on the page.
 */
module Extraction {
  import opened Wrappers
  import opened Records
  import opened Aggregation

  /** The rows `tr[id^='P']` of a table; an absent table has none. */
  function RowsOf(table: Option<seq<RowView>>): seq<RowView> {
    match table
    case None => []
    case Some(rows) => rows
  }

  /** `f` applied to each element of `s`, in order. */
  function Map<A, B>(s: seq<A>, f: A -> B): (r: seq<B>)
    ensures |r| == |s|
    ensures forall i :: 0 <= i < |s| ==> r[i] == f(s[i])
  {
    seq(|s|, i requires 0 <= i < |s| => f(s[i]))
  }

  lemma MapConcat<A, B>(a: seq<A>, b: seq<A>, f: A -> B)
    ensures Map(a + b, f) == Map(a, f) + Map(b, f)
  {
    var l, r := Map(a + b, f), Map(a, f) + Map(b, f);
    forall i | 0 <= i < |l| ensures l[i] == r[i] {
      if i >= |a| {
        assert (a + b)[i] == b[i - |a|];
      } else {
        assert (a + b)[i] == a[i];
      }
    }
  }

  function Extractor(categoria: Category): RowView -> Option<Processo> {
    row => ExtractRow(row, categoria)
  }

  /** `extrair_processo_da_linha` applied to each row of one table. */
  function RowResults(rows: seq<RowView>, categoria: Category): (r: seq<Option<Processo>>)
    ensures |r| == |rows|
    ensures forall i :: 0 <= i < |rows| ==> r[i] == ExtractRow(rows[i], categoria)
  {
    Map(rows, Extractor(categoria))
  }

  /** The records present among the per-row results, in row order. */
  function Somes(results: seq<Option<Processo>>): seq<Processo>
    decreases |results|
  {
    if results == [] then []
    else
      var head := match results[0]
        case None => []
        case Some(p) => [p];
      head + Somes(results[1..])
  }

  lemma {:induction false} SomesFrom(results: seq<Option<Processo>>, categoria: Category)
    requires forall i :: 0 <= i < |results| && results[i].Some? ==> results[i].value.categoria == categoria
    ensures forall q :: q in Somes(results) ==> q.categoria == categoria
    decreases |results|
  {
    if results != [] {
      SomesFrom(results[1..], categoria);
    }
  }

  /** The records that the rows of one table yield, in row order, all of that table's category. */
  function Extracted(rows: seq<RowView>, categoria: Category): (r: seq<Processo>)
    ensures forall q :: q in r ==> q.categoria == categoria
  {
    SomesFrom(RowResults(rows, categoria), categoria);
    Somes(RowResults(rows, categoria))
  }

  lemma {:induction false} SomesConcat(a: seq<Option<Processo>>, b: seq<Option<Processo>>)
    ensures Somes(a + b) == Somes(a) + Somes(b)
    decreases |a|
  {
    if a == [] {
      assert a + b == b;
    } else {
      assert (a + b)[0] == a[0] && (a + b)[1..] == a[1..] + b;
      SomesConcat(a[1..], b);
    }
  }

  lemma RowResultsConcat(a: seq<RowView>, b: seq<RowView>, categoria: Category)
    ensures RowResults(a + b, categoria) == RowResults(a, categoria) + RowResults(b, categoria)
  {
    MapConcat(a, b, Extractor(categoria));
  }

  /** The records of a table come in row order: the rows of `a` then `b` yield the records of `a` then those of `b`. */
  lemma ExtractedInRowOrder(a: seq<RowView>, b: seq<RowView>, categoria: Category)
    ensures Extracted(a + b, categoria) == Extracted(a, categoria) + Extracted(b, categoria)
  {
    RowResultsConcat(a, b, categoria);
    SomesConcat(RowResults(a, categoria), RowResults(b, categoria));
  }

  /** A single row yields its own record when it has one, and nothing otherwise. */
  lemma ExtractedOneRow(row: RowView, categoria: Category)
    ensures ExtractRow(row, categoria).None? ==> Extracted([row], categoria) == []
    ensures ExtractRow(row, categoria).Some? ==> Extracted([row], categoria) == [ExtractRow(row, categoria).value]
  {
    var rs := RowResults([row], categoria);
    assert rs == [ExtractRow(row, categoria)];
    assert rs[1..] == [];
    assert Somes(rs[1..]) == [];
  }

  /** What the page yields before de-duplication. */
  function PageRecords(recebidos: Option<seq<RowView>>, gerados: Option<seq<RowView>>): seq<Processo> {
    Extracted(RowsOf(recebidos), Recebidos) + Extracted(RowsOf(gerados), Gerados)
  }

  /** The page's records after de-duplication by `id_procedimento`. */
  function PageProcesses(recebidos: Option<seq<RowView>>, gerados: Option<seq<RowView>>): seq<Processo> {
    Keep({}, PageRecords(recebidos, gerados), ByIdOnly)
  }

  /**
   * The page's records have distinct, non-empty ids; a record with an id met
   * earlier on the page (in particular in "Recebidos") shadows later ones;
   * and every "Recebidos" record precedes every "Gerados" record.
   */
  lemma PageProcessesShape(recebidos: Option<seq<RowView>>, gerados: Option<seq<RowView>>)
    ensures var r := PageProcesses(recebidos, gerados);
      UniqueKeys(r, ByIdOnly) &&
      (forall q :: q in r ==> q.idProcedimento != "") &&
      (forall i, j :: 0 <= i < j < |r| && r[j].categoria == Recebidos ==> r[i].categoria == Recebidos)
    ensures forall j :: Admitted({}, PageRecords(recebidos, gerados), j, ByIdOnly) ==>
      PageRecords(recebidos, gerados)[j] in PageProcesses(recebidos, gerados)
  {
    var a := Extracted(RowsOf(recebidos), Recebidos);
    var b := Extracted(RowsOf(gerados), Gerados);
    KeepSound({}, a + b, ByIdOnly);
    KeepFirstSeen({}, a + b, ByIdOnly);
    KeepConcat({}, a, b, ByIdOnly);
    var ka := Keep({}, a, ByIdOnly);
    var kb := Keep({} + KeySet(ka, ByIdOnly), b, ByIdOnly);
    KeepSound({}, a, ByIdOnly);
    KeepSound({} + KeySet(ka, ByIdOnly), b, ByIdOnly);
    assert forall q :: q in ka ==> q.categoria == Recebidos;
    assert forall q :: q in kb ==> q.categoria == Gerados;
    CategoriesOrdered(ka, kb);
  }

  /** "Recebidos" records followed by "Gerados" records: no "Recebidos" record comes after a "Gerados" one. */
  lemma CategoriesOrdered(x: seq<Processo>, y: seq<Processo>)
    requires forall q :: q in x ==> q.categoria == Recebidos
    requires forall q :: q in y ==> q.categoria == Gerados
    ensures forall i, j :: 0 <= i < j < |x + y| && (x + y)[j].categoria == Recebidos ==> (x + y)[i].categoria == Recebidos
  {
    var r := x + y;
    forall j | |x| <= j < |r| ensures r[j].categoria == Gerados {
      assert r[j] == y[j - |x|];
    }
    forall i | 0 <= i < |x| ensures r[i].categoria == Recebidos {
      assert r[i] == x[i];
    }
  }

  /**
   * The page's records keep the order of the page's rows: they are picked,
   * at increasing positions, out of the "Recebidos" records followed by the
   * "Gerados" records, and the positions picked are exactly the first
   * occurrence of each non-empty id.
   */
  lemma PageProcessesInOrder(recebidos: Option<seq<RowView>>, gerados: Option<seq<RowView>>)
    ensures var n := PageRecords(recebidos, gerados);
      var f := KeptIndices({}, n, ByIdOnly);
      Picks(PageProcesses(recebidos, gerados), n, f) &&
      forall j :: 0 <= j < |n| ==> (j in f <==> Admitted({}, n, j, ByIdOnly))
  {
    var n := PageRecords(recebidos, gerados);
    KeepSubsequence({}, n, ByIdOnly);
    KeptAreAdmitted({}, n, ByIdOnly);
    AdmittedAreKept({}, n, ByIdOnly);
  }

  /** One row of the loop: how the de-duplicated remainder unfolds past `results[0]`. */
  lemma KeepRowStep(ids: set<string>, results: seq<Option<Processo>>, rest: seq<Processo>)
    requires results != []
    ensures results[0].None? ==>
      Keep(ids, Somes(results) + rest, ByIdOnly) == Keep(ids, Somes(results[1..]) + rest, ByIdOnly)
    ensures results[0].Some? ==>
      var p := results[0].value;
      var k := p.idProcedimento;
      Keep(ids, Somes(results) + rest, ByIdOnly) ==
        if k != "" && k !in ids then [p] + Keep(ids + {k}, Somes(results[1..]) + rest, ByIdOnly)
        else Keep(ids, Somes(results[1..]) + rest, ByIdOnly)
  {
    var tail := Somes(results[1..]) + rest;
    match results[0]
    case None =>
      assert Somes(results) + rest == tail;
    case Some(p) =>
      assert Somes(results) + rest == [p] + tail;
      assert ([p] + tail)[0] == p && ([p] + tail)[1..] == tail;
  }

  /**
   * One loop of `extrair_processos` over the rows of one table: the records
   * it appends, and the ids it adds, are those the de-duplication of the
   * table's records followed by `rest` takes before reaching `rest`.
   */
  method TakeRows(rows: seq<RowView>, categoria: Category, processos0: seq<Processo>, ids0: set<string>, ghost rest: seq<Processo>)
    returns (processos: seq<Processo>, ids: set<string>)
    ensures processos0 + Keep(ids0, Somes(RowResults(rows, categoria)) + rest, ByIdOnly) == processos + Keep(ids, rest, ByIdOnly)
  {
    ghost var res := RowResults(rows, categoria);
    processos, ids := processos0, ids0;
    var i := 0;
    assert res[0..] == res;
    while i < |rows|
      invariant 0 <= i <= |rows|
      invariant processos0 + Keep(ids0, Somes(res) + rest, ByIdOnly) == processos + Keep(ids, Somes(res[i..]) + rest, ByIdOnly)
    {
      KeepRowStep(ids, res[i..], rest);
      assert res[i..][0] == res[i] && res[i..][1..] == res[i + 1..];
      var proc := ExtractRow(rows[i], categoria);
      if proc.Some? && proc.value.idProcedimento != "" && proc.value.idProcedimento !in ids {
        processos := processos + [proc.value];
        ids := ids + {proc.value.idProcedimento};
      }
      i := i + 1;
    }
    assert Somes(res[i..]) + rest == rest;
  }

  /** `extrair_processos`: the "Recebidos" rows, then the "Gerados" rows, sharing the set of ids already taken. */
  method ExtrairProcessos(recebidos: Option<seq<RowView>>, gerados: Option<seq<RowView>>) returns (processos: seq<Processo>)
    ensures processos == PageProcesses(recebidos, gerados)
  {
    var rowsR := RowsOf(recebidos);
    var rowsG := RowsOf(gerados);
    ghost var restG := Somes(RowResults(rowsG, Gerados));
    var ids: set<string>;
    processos, ids := TakeRows(rowsR, Recebidos, [], {}, restG);
    processos, ids := TakeRows(rowsG, Gerados, processos, ids, []);
    assert restG + [] == restG;
    assert Keep(ids, [], ByIdOnly) == [];
    assert [] + PageProcesses(recebidos, gerados) == PageProcesses(recebidos, gerados);
  }
}
