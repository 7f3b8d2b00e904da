/**
 * `PUT /api/assistant/:id`: rename an assistant or change its instructions.
 * The handler builds a parameterised UPDATE whose SET clause names only the
 * fields the body supplies, numbering the placeholders `$1`, `$2`, ... in the
 * order it pushes the values, and binding the assistant's id last.
 */
module UpdateSql {
  import opened JsString
  import opened MessageStore

  /** A bound parameter of the statement. */
  datatype SqlValue = Text(text: string) | Number(n: int)

  /** One `column=$placeholder` assignment of the SET clause. */
  datatype Clause = Clause(column: string, placeholder: nat)

  function ClauseText(c: Clause): string {
    c.column + "=$" + Decimal(c.placeholder)
  }

  function ClauseTexts(cs: seq<Clause>): (r: seq<string>)
    ensures |r| == |cs|
    ensures forall i :: 0 <= i < |cs| ==> r[i] == ClauseText(cs[i])
  {
    if cs == [] then [] else ClauseTexts(cs[..|cs| - 1]) + [ClauseText(cs[|cs| - 1])]
  }

  /** The text of `UPDATE assistants SET <clauses> WHERE id=$<where>`. */
  function StatementText(cs: seq<Clause>, where: nat): string {
    "UPDATE assistants SET " + Join(ClauseTexts(cs), ", ") + " WHERE id=$" + Decimal(where)
  }

  /** The handler's answer: the row as read back after the update, or an error. */
  datatype UpdateResponse =
    | Updated(row: AssistantRecord)
    | UpdateFailed(status: int, error: string)

  /** How the upstream `assistants.update` call ends. */
  datatype UpstreamCall = Succeeded | Threw(message: Option<string>)

  /** The SET clause and the values the handler pushes, with the placeholder
      counter `idx` advancing once per pushed field. */
  method BuildUpdate(name: Option<string>, instructions: Option<string>, id: int)
    returns (sql: string, values: seq<SqlValue>, clauses: seq<Clause>)
    requires Truthy(name) || Truthy(instructions)
    ensures sql == StatementText(clauses, |values|)
    ensures 1 <= |clauses| <= 2 && |values| == |clauses| + 1
    ensures forall i :: 0 <= i < |clauses| ==> clauses[i].placeholder == i + 1
    ensures values[|values| - 1] == Number(id)
    ensures Truthy(name) ==> clauses[0] == Clause("name", 1) && values[0] == Text(name.value)
    ensures Truthy(instructions) ==>
      var j := |clauses| - 1;
      clauses[j] == Clause("system_prompt", j + 1) && values[j] == Text(instructions.value)
    ensures |clauses| == 2 <==> Truthy(name) && Truthy(instructions)
  {
    var updates: seq<string> := [];
    values := [];
    clauses := [];
    assert updates == ClauseTexts(clauses);
    var idx := 1;
    if Truthy(name) {
      assert (clauses + [Clause("name", idx)])[..|clauses|] == clauses;
      assert "name" + "=$" == "name=$";
      assert ClauseText(Clause("name", idx)) == "name=$" + Decimal(idx);
      updates := updates + ["name=$" + Decimal(idx)];
      clauses := clauses + [Clause("name", idx)];
      assert updates == ClauseTexts(clauses);
      idx := idx + 1;
      values := values + [Text(name.value)];
    }
    if Truthy(instructions) {
      assert (clauses + [Clause("system_prompt", idx)])[..|clauses|] == clauses;
      assert "system_prompt" + "=$" == "system_prompt=$";
      assert ClauseText(Clause("system_prompt", idx)) == "system_prompt=$" + Decimal(idx);
      updates := updates + ["system_prompt=$" + Decimal(idx)];
      clauses := clauses + [Clause("system_prompt", idx)];
      assert updates == ClauseTexts(clauses);
      idx := idx + 1;
      values := values + [Text(instructions.value)];
    }
    values := values + [Number(id)];
    sql := "UPDATE assistants SET " + Join(updates, ", ") + " WHERE id=$" + Decimal(idx);
  }

  /** What one assignment does to a row, once its placeholder is bound. */
  function Assign(r: AssistantRecord, column: string, v: SqlValue): AssistantRecord {
    if column == "name" && v.Text? then r.(name := v.text)
    else if column == "system_prompt" && v.Text? then r.(systemPrompt := v.text)
    else r
  }

  predicate Bindable(cs: seq<Clause>, values: seq<SqlValue>) {
    forall i :: 0 <= i < |cs| ==> 1 <= cs[i].placeholder <= |values|
  }

  /** The SET clause applied to one row, left to right. */
  function AssignAll(r: AssistantRecord, cs: seq<Clause>, values: seq<SqlValue>): AssistantRecord
    requires Bindable(cs, values)
  {
    if cs == [] then r
    else
      var c := cs[|cs| - 1];
      Assign(AssignAll(r, cs[..|cs| - 1], values), c.column, values[c.placeholder - 1])
  }

  /** The statement executed with `$k` bound to `values[k - 1]`: every row
      whose id equals the WHERE parameter gets the SET clause. */
  function Execute(rows: seq<AssistantRecord>, cs: seq<Clause>, where: nat,
                   values: seq<SqlValue>): (r: seq<AssistantRecord>)
    requires Bindable(cs, values) && 1 <= where <= |values|
    ensures |r| == |rows|
  {
    if rows == [] then []
    else
      var head := if values[where - 1] == Number(rows[0].id)
                  then AssignAll(rows[0], cs, values) else rows[0];
      [head] + Execute(rows[1..], cs, where, values)
  }

  /** The intended effect of the request: the assistant with that id takes the
      supplied name and instructions, keeping a field the body leaves falsy. */
  function UpdateRows(rows: seq<AssistantRecord>, id: int,
                      name: Option<string>, instructions: Option<string>): (r: seq<AssistantRecord>)
    ensures |r| == |rows|
    ensures forall i :: 0 <= i < |rows| ==>
      r[i].id == rows[i].id && r[i].openAiAssistantId == rows[i].openAiAssistantId
    ensures forall i :: 0 <= i < |rows| && rows[i].id != id ==> r[i] == rows[i]
    ensures forall i :: 0 <= i < |rows| && rows[i].id == id ==>
      r[i].name == OrElse(name, rows[i].name) &&
      r[i].systemPrompt == OrElse(instructions, rows[i].systemPrompt)
  {
    if rows == [] then []
    else
      var r := rows[0];
      var head := if r.id == id
                  then r.(name := OrElse(name, r.name), systemPrompt := OrElse(instructions, r.systemPrompt))
                  else r;
      var rest := UpdateRows(rows[1..], id, name, instructions);
      assert forall i :: 1 <= i < |rows| ==> ([head] + rest)[i] == rest[i - 1] && rows[1..][i - 1] == rows[i];
      [head] + rest
  }

  /** The built statement, executed with the built values, has the intended
      effect: each placeholder picks up the value pushed for its column and the
      WHERE placeholder picks up the id. */
  lemma {:induction false} StatementMeaning(rows: seq<AssistantRecord>, id: int,
                                            name: Option<string>, instructions: Option<string>,
                                            clauses: seq<Clause>, values: seq<SqlValue>)
    requires 1 <= |clauses| <= 2 && |values| == |clauses| + 1
    requires forall i :: 0 <= i < |clauses| ==> clauses[i].placeholder == i + 1
    requires values[|values| - 1] == Number(id)
    requires Truthy(name) ==> clauses[0] == Clause("name", 1) && values[0] == Text(name.value)
    requires Truthy(instructions) ==>
      clauses[|clauses| - 1] == Clause("system_prompt", |clauses|) &&
      values[|clauses| - 1] == Text(instructions.value)
    requires |clauses| == 2 <==> Truthy(name) && Truthy(instructions)
    requires Truthy(name) || Truthy(instructions)
    ensures Bindable(clauses, values)
    ensures Execute(rows, clauses, |values|, values) == UpdateRows(rows, id, name, instructions)
  {
    if rows != [] {
      StatementMeaning(rows[1..], id, name, instructions, clauses, values);
      var r := rows[0];
      if r.id == id {
        var want := r.(name := OrElse(name, r.name), systemPrompt := OrElse(instructions, r.systemPrompt));
        if |clauses| == 2 {
          assert clauses[..1][..0] == [];
          assert AssignAll(r, clauses[..1], values) == r.(name := name.value);
          assert clauses[..2] == clauses;
        } else if Truthy(name) {
          assert clauses[..0] == [];
        } else {
          assert clauses[..0] == [];
        }
        assert AssignAll(r, clauses, values) == want;
      }
    }
  }

  /** The placeholders of the SET clause read `$1`, `$2`, ... in order, and the
      WHERE placeholder reads the number of values. */
  lemma PlaceholdersConsecutive(clauses: seq<Clause>, values: seq<SqlValue>, sql: string)
    requires forall i :: 0 <= i < |clauses| ==> clauses[i].placeholder == i + 1
    requires sql == StatementText(clauses, |values|)
    ensures forall i :: 0 <= i < |clauses| ==>
      DigitsValue(ClauseTexts(clauses)[i][|clauses[i].column| + 2..]) == i + 1
    ensures sql == "UPDATE assistants SET " + Join(ClauseTexts(clauses), ", ") +
                   " WHERE id=$" + Decimal(|values|)
    ensures DigitsValue(Decimal(|values|)) == |values|
  {
    forall i | 0 <= i < |clauses|
      ensures DigitsValue(ClauseTexts(clauses)[i][|clauses[i].column| + 2..]) == i + 1
    {
      var c := clauses[i];
      assert ClauseTexts(clauses)[i][|c.column| + 2..] == Decimal(c.placeholder);
      DecimalRoundTrip(c.placeholder);
    }
    DecimalRoundTrip(|values|);
  }

  /** The handler after the body is read: the checks with their statuses, the
      upstream update, then the UPDATE and the read-back. `after` is the
      `assistants` table when the handler returns. */
  method UpdateAssistant(assistants: seq<AssistantRecord>, id: NumberValue,
                         name: Option<string>, instructions: Option<string>,
                         upstream: UpstreamCall)
    returns (resp: UpdateResponse, after: seq<AssistantRecord>)
    ensures id.NonFinite? ==> resp == UpdateFailed(400, "Invalid id") && after == assistants
    ensures id.Finite? && !Truthy(name) && !Truthy(instructions) ==>
      resp == UpdateFailed(400, "Nothing to update") && after == assistants
    ensures id.Finite? && (Truthy(name) || Truthy(instructions)) &&
            FindAssistant(assistants, id.n).None? ==>
      resp == UpdateFailed(404, "Assistant not found") && after == assistants
    ensures id.Finite? && (Truthy(name) || Truthy(instructions)) &&
            FindAssistant(assistants, id.n).Some? && upstream.Threw? ==>
      resp == UpdateFailed(500, OrElse(upstream.message, "Failed to update assistant")) &&
      after == assistants
    ensures id.Finite? && (Truthy(name) || Truthy(instructions)) &&
            FindAssistant(assistants, id.n).Some? && upstream.Succeeded? ==>
      after == UpdateRows(assistants, id.n, name, instructions) &&
      resp.Updated? && resp.row.id == id.n &&
      resp.row.name == OrElse(name, FindAssistant(assistants, id.n).value.name) &&
      resp.row.systemPrompt == OrElse(instructions, FindAssistant(assistants, id.n).value.systemPrompt)
    ensures id.Finite? && (Truthy(name) || Truthy(instructions)) &&
            FindAssistant(assistants, id.n).Some? && upstream.Succeeded? ==>
      resp == Updated(FindAssistant(after, id.n).value) &&
      resp.row.openAiAssistantId == FindAssistant(assistants, id.n).value.openAiAssistantId
  {
    after := assistants;
    if id.NonFinite? {
      return UpdateFailed(400, "Invalid id"), after;
    }
    if !Truthy(name) && !Truthy(instructions) {
      return UpdateFailed(400, "Nothing to update"), after;
    }
    if FindAssistant(assistants, id.n).None? {
      return UpdateFailed(404, "Assistant not found"), after;
    }
    if upstream.Threw? {
      return UpdateFailed(500, OrElse(upstream.message, "Failed to update assistant")), after;
    }
    var sql, values, clauses := BuildUpdate(name, instructions, id.n);
    StatementMeaning(assistants, id.n, name, instructions, clauses, values);
    after := Execute(assistants, clauses, |values|, values);
    FindAfterUpdate(assistants, id.n, name, instructions);
    resp := Updated(FindAssistant(after, id.n).value);
  }

  /** The read-back finds the updated version of the row the check found. */
  lemma {:induction false} FindAfterUpdate(rows: seq<AssistantRecord>, id: int,
                                           name: Option<string>, instructions: Option<string>)
    requires FindAssistant(rows, id).Some?
    ensures var old_ := FindAssistant(rows, id).value;
            FindAssistant(UpdateRows(rows, id, name, instructions), id) ==
            Some(old_.(name := OrElse(name, old_.name),
                       systemPrompt := OrElse(instructions, old_.systemPrompt)))
  {
    if rows[0].id != id {
      FindAfterUpdate(rows[1..], id, name, instructions);
    }
  }
}
