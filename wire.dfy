/**
 * The JSON shapes the engine returns and the browser client renders.
 * A key of a JSON object is either missing, explicitly null, or holds a value;
 * both programs distinguish the three only where it matters to them.
 */
module Wire {

  datatype Option<+T> = None | Some(value: T)

  /** One key of a JSON object: missing, `null`, or holding a value. */
  datatype Field<+T> = Absent | Null | Present(value: T)

  /** One reported bug; `kind` stands for the JSON key "type". */
  datatype Bug = Bug(line: Field<int>, kind: Field<string>, message: Field<string>)

  /** The bug's line is missing or null: `bug.get("line") is None` on the
      server, `bug.line === null || bug.line === undefined` on the client. */
  predicate LineMissing(b: Bug) {
    b.line.Absent? || b.line.Null?
  }

  datatype Complexity = Complexity(time: string, space: string)

  datatype TestCase = TestCase(description: string, input: string, expectedOutput: string)

  /** The analysis object: "using_ai", "message", "bugs", "explanation",
      "fixed_code", "optimized_code", "complexity" and "tests". */
  datatype Analysis = Analysis(
    usingAi: Field<bool>,
    message: Field<string>,
    bugs: Field<seq<Bug>>,
    explanation: Field<string>,
    fixedCode: Field<string>,
    optimizedCode: Field<string>,
    complexity: Field<Complexity>,
    tests: Field<seq<TestCase>>)
}
