/**
 * The flat row that the structure route emits and the client assembler
 * consumes: one column per alias of the nested query (server.ts:36-48).
 */
module Rows {
  import opened JsValues

  datatype Row = Row(
    mes_id: Value, numero_mes: Value, mes_nombre: Value,
    semana_id: Value, numero_semana: Value, semana_titulo: Value, semana_closed: Value,
    actividad_id: Value, actividad_desc: Value, es_critica: Value, actividad_tipo: Value,
    tarea_id: Value, tarea_desc: Value, tarea_completada: Value,
    kpi_id: Value, nombre_metrica: Value, tipo_dato: Value, meta_objetivo: Value,
    valor_actual: Value, es_obligatorio: Value,
    evidence_req_id: Value, evidence_nombre: Value, es_obligatoria: Value, evidence_value: Value)

  /** The empty object `{}`: every column is absent. */
  const EmptyRow := Row(
    Undefined, Undefined, Undefined,
    Undefined, Undefined, Undefined, Undefined,
    Undefined, Undefined, Undefined, Undefined,
    Undefined, Undefined, Undefined,
    Undefined, Undefined, Undefined, Undefined, Undefined, Undefined,
    Undefined, Undefined, Undefined, Undefined)

  /** `rows.forEach(row => { state = step(state, row) })`, as a left fold. */
  function FoldRows<S>(s: S, rows: seq<Row>, step: (S, Row) -> S): S
    decreases |rows|
  {
    if rows == [] then s else FoldRows(step(s, rows[0]), rows[1..], step)
  }

  /** Folding a concatenation folds the second part from where the first stopped. */
  lemma {:induction false} FoldRowsAppend<S>(s: S, r1: seq<Row>, r2: seq<Row>, step: (S, Row) -> S)
    ensures FoldRows(s, r1 + r2, step) == FoldRows(FoldRows(s, r1, step), r2, step)
    decreases |r1|
  {
    if r1 != [] {
      assert (r1 + r2)[0] == r1[0];
      assert (r1 + r2)[1..] == r1[1..] + r2;
      FoldRowsAppend(step(s, r1[0]), r1[1..], r2, step);
    } else {
      assert r1 + r2 == r2;
    }
  }

  /** One more row is one more step. */
  lemma FoldRowsSnoc<S>(s: S, rows: seq<Row>, row: Row, step: (S, Row) -> S)
    ensures FoldRows(s, rows + [row], step) == step(FoldRows(s, rows, step), row)
  {
    FoldRowsAppend(s, rows, [row], step);
    assert [row][1..] == [];
  }
}
