/** The byte stream hashed into a confirmation digest tells its inputs apart. */
module ConfirmationDigest {
  import opened Common

  type Byte = b: int | 0 <= b < 256

  type Bytes = seq<Byte>

  datatype Tool = Claude | Codex

  datatype Operation = Remove | Status | Preview

  /** Paths are given by the bytes of their lossy text. */
  datatype Input = Input(
    tool: Tool,
    configurationPath: Bytes,
    currentContents: Option<Bytes>,
    operation: Operation,
    proposedContents: Option<Bytes>,
    workflowPath: Bytes,
    currentWorkflow: Option<Bytes>,
    proposedWorkflow: Option<Bytes>,
    compatibilityPath: Bytes,
    currentCompatibility: Option<Bytes>,
    proposedCompatibility: Option<Bytes>)

  function Ascii(text: string): Bytes {
    seq(|text|, i requires 0 <= i < |text| => text[i] as int % 256)
  }

  const DOMAIN: string := "agent-workboard/integration-confirmation/v1"

  function ToolName(tool: Tool): Bytes {
    match tool
    case Claude => Ascii("claude")
    case Codex => Ascii("codex")
  }

  function OperationByte(operation: Operation): Byte {
    match operation
    case Remove => 4
    case Status => 5
    case Preview => 6
  }

  function Pow256(k: nat): nat {
    if k == 0 then 1 else 256 * Pow256(k - 1)
  }

  /** `to_le_bytes` of the low `k` bytes. */
  function LittleEndian(n: nat, k: nat): (r: Bytes)
    ensures |r| == k
  {
    if k == 0 then [] else [n % 256] + LittleEndian(n / 256, k - 1)
  }

  function Field(value: Bytes): Bytes {
    LittleEndian(|value|, 8) + value
  }

  function Optional(value: Option<Bytes>): Bytes {
    match value
    case None => [0]
    case Some(bytes) => [1] + Field(bytes)
  }

  /** What is fed from the workflow path on. */
  function FromWorkflow(a: Input): Bytes {
    Field(a.workflowPath) + (Optional(a.currentWorkflow) + (Optional(a.proposedWorkflow)
    + (Field(a.compatibilityPath) + (Optional(a.currentCompatibility) + Optional(a.proposedCompatibility)))))
  }

  function Stream(a: Input): Bytes {
    Ascii(DOMAIN) + (Field(ToolName(a.tool)) + (Field(a.configurationPath)
    + ([OperationByte(a.operation)] + (Optional(a.currentContents) + (Optional(a.proposedContents) + FromWorkflow(a))))))
  }

  /** The incremental hasher, by the bytes fed to it. */
  class Hasher {
    var fed: Bytes

    constructor ()
      ensures fed == []
    {
      fed := [];
    }

    /** `rest` is what remains to be fed afterwards. */
    method Update(bytes: Bytes, ghost rest: Bytes)
      modifies this
      ensures fed == old(fed) + bytes
      ensures fed + rest == old(fed) + (bytes + rest)
    {
      fed := fed + bytes;
    }

    method UpdateField(value: Bytes, ghost rest: Bytes)
      modifies this
      ensures fed == old(fed) + Field(value)
      ensures fed + rest == old(fed) + (Field(value) + rest)
    {
      Update(LittleEndian(|value|, 8), value + rest);
      Update(value, rest);
    }

    method UpdateOptional(value: Option<Bytes>, ghost rest: Bytes)
      modifies this
      ensures fed == old(fed) + Optional(value)
      ensures fed + rest == old(fed) + (Optional(value) + rest)
    {
      if value.Some? {
        Update([1], Field(value.value) + rest);
        UpdateField(value.value, rest);
      } else {
        Update([0], rest);
      }
    }

    method UpdatePair(pair: seq<Option<Bytes>>, ghost rest: Bytes)
      requires |pair| == 2
      modifies this
      ensures fed + rest == old(fed) + (Optional(pair[0]) + (Optional(pair[1]) + rest))
    {
      ghost var whole := fed + (Optional(pair[0]) + (Optional(pair[1]) + rest));
      for i := 0 to 2
        invariant whole == fed + if i == 0 then Optional(pair[0]) + (Optional(pair[1]) + rest)
                                 else if i == 1 then Optional(pair[1]) + rest else rest
      {
        UpdateOptional(pair[i], if i == 0 then Optional(pair[1]) + rest else rest);
      }
    }

    method UpdateFromWorkflow(input: Input)
      modifies this
      ensures fed == old(fed) + FromWorkflow(input)
    {
      ghost var r4 := Optional(input.currentCompatibility) + Optional(input.proposedCompatibility);
      ghost var r3 := Field(input.compatibilityPath) + r4;
      UpdateField(input.workflowPath, Optional(input.currentWorkflow) + (Optional(input.proposedWorkflow) + r3));
      UpdatePair([input.currentWorkflow, input.proposedWorkflow], r3);
      UpdateField(input.compatibilityPath, r4);
      UpdatePair([input.currentCompatibility, input.proposedCompatibility], []);
      assert Optional(input.proposedCompatibility) + [] == Optional(input.proposedCompatibility);
      assert fed + [] == fed;
    }
  }

  method ConfigurationDigest(input: Input) returns (fed: Bytes)
    ensures fed == Stream(input)
  {
    ghost var r5 := Optional(input.proposedContents) + FromWorkflow(input);
    ghost var r4 := Optional(input.currentContents) + r5;
    ghost var r3 := [OperationByte(input.operation)] + r4;
    ghost var r2 := Field(input.configurationPath) + r3;
    var digest := new Hasher();
    digest.Update(Ascii(DOMAIN), Field(ToolName(input.tool)) + r2);
    digest.UpdateField(ToolName(input.tool), r2);
    digest.UpdateField(input.configurationPath, r3);
    digest.Update([OperationByte(input.operation)], r4);
    digest.UpdateOptional(input.currentContents, r5);
    digest.UpdateOptional(input.proposedContents, FromWorkflow(input));
    digest.UpdateFromWorkflow(input);
    return digest.fed;
  }

  /** Lengths that fit the 64-bit length prefix, as the length of every slice does. */
  predicate Fits(value: Bytes) {
    |value| < Pow256(8)
  }

  predicate FitsOptional(value: Option<Bytes>) {
    value.Some? ==> Fits(value.value)
  }

  predicate Encodable(input: Input) {
    Fits(input.configurationPath) && Fits(input.workflowPath) && Fits(input.compatibilityPath)
    && FitsOptional(input.currentContents) && FitsOptional(input.proposedContents)
    && FitsOptional(input.currentWorkflow) && FitsOptional(input.proposedWorkflow)
    && FitsOptional(input.currentCompatibility) && FitsOptional(input.proposedCompatibility)
  }

  lemma {:induction false} LittleEndianInjective(m: nat, n: nat, k: nat)
    requires m < Pow256(k) && n < Pow256(k) && LittleEndian(m, k) == LittleEndian(n, k)
    ensures m == n
  {
    if k > 0 {
      assert LittleEndian(m, k)[0] == m % 256 && LittleEndian(n, k)[0] == n % 256;
      assert LittleEndian(m, k)[1..] == LittleEndian(m / 256, k - 1);
      assert LittleEndian(n, k)[1..] == LittleEndian(n / 256, k - 1);
      LittleEndianInjective(m / 256, n / 256, k - 1);
    }
  }

  lemma SplitAt(a: Bytes, x: Bytes, b: Bytes, y: Bytes)
    requires a + x == b + y && |a| == |b|
    ensures a == b && x == y
  {
    assert a == (a + x)[..|a|] && b == (b + y)[..|b|];
    assert x == (a + x)[|a|..] && y == (b + y)[|b|..];
  }

  /** A length-prefixed field can be read off the front of a stream in one way only. */
  lemma FieldReadOff(v: Bytes, x: Bytes, w: Bytes, y: Bytes)
    requires Field(v) + x == Field(w) + y && Fits(v) && Fits(w)
    ensures v == w && x == y
  {
    hide LittleEndian, Pow256;
    assert Field(v) + x == LittleEndian(|v|, 8) + (v + x);
    assert Field(w) + y == LittleEndian(|w|, 8) + (w + y);
    SplitAt(LittleEndian(|v|, 8), v + x, LittleEndian(|w|, 8), w + y);
    LittleEndianInjective(|v|, |w|, 8);
    SplitAt(v, x, w, y);
  }

  lemma TagReadOff(t: Byte, x: Bytes, u: Byte, y: Bytes)
    requires [t] + x == [u] + y
    ensures t == u && x == y
  {
    SplitAt([t], x, [u], y);
    assert t == [t][0] && u == [u][0];
  }

  function Tagged(value: Option<Bytes>): (Byte, Bytes) {
    if value.Some? then (1, Field(value.value)) else (0, [])
  }

  lemma OptionalTagged(value: Option<Bytes>, rest: Bytes)
    ensures Optional(value) + rest == [Tagged(value).0] + (Tagged(value).1 + rest)
  {
  }

  lemma OptionalReadOff(v: Option<Bytes>, x: Bytes, w: Option<Bytes>, y: Bytes)
    requires Optional(v) + x == Optional(w) + y && FitsOptional(v) && FitsOptional(w)
    ensures v == w && x == y
  {
    hide Optional, Field, Fits;
    OptionalTagged(v, x);
    OptionalTagged(w, y);
    TagReadOff(Tagged(v).0, Tagged(v).1 + x, Tagged(w).0, Tagged(w).1 + y);
    if v.Some? {
      FieldReadOff(v.value, x, w.value, y);
    } else {
      assert Tagged(v).1 + x == x && Tagged(w).1 + y == y;
    }
  }

  lemma WorkflowPartReadOff(a: Input, b: Input)
    requires Encodable(a) && Encodable(b) && FromWorkflow(a) == FromWorkflow(b)
    ensures a.workflowPath == b.workflowPath && a.currentWorkflow == b.currentWorkflow
    ensures a.proposedWorkflow == b.proposedWorkflow && a.compatibilityPath == b.compatibilityPath
    ensures a.currentCompatibility == b.currentCompatibility && a.proposedCompatibility == b.proposedCompatibility
  {
    var a5, b5 := Optional(a.proposedCompatibility), Optional(b.proposedCompatibility);
    var a4, b4 := Optional(a.currentCompatibility) + a5, Optional(b.currentCompatibility) + b5;
    var a3, b3 := Field(a.compatibilityPath) + a4, Field(b.compatibilityPath) + b4;
    var a2, b2 := Optional(a.proposedWorkflow) + a3, Optional(b.proposedWorkflow) + b3;
    var a1, b1 := Optional(a.currentWorkflow) + a2, Optional(b.currentWorkflow) + b2;
    FieldReadOff(a.workflowPath, a1, b.workflowPath, b1);
    OptionalReadOff(a.currentWorkflow, a2, b.currentWorkflow, b2);
    OptionalReadOff(a.proposedWorkflow, a3, b.proposedWorkflow, b3);
    FieldReadOff(a.compatibilityPath, a4, b.compatibilityPath, b4);
    OptionalReadOff(a.currentCompatibility, a5, b.currentCompatibility, b5);
    assert a5 + [] == a5 && b5 + [] == b5;
    OptionalReadOff(a.proposedCompatibility, [], b.proposedCompatibility, []);
  }

  lemma ToolNameFits(tool: Tool)
    ensures Fits(ToolName(tool)) && |ToolName(tool)| == if tool == Claude then 6 else 5
  {
    assert Pow256(8) >= Pow256(1);
  }

  /** Equal streams come from equal inputs. */
  lemma StreamInjective(a: Input, b: Input)
    requires Encodable(a) && Encodable(b) && Stream(a) == Stream(b)
    ensures a == b
  {
    var a5, b5 := Optional(a.proposedContents) + FromWorkflow(a), Optional(b.proposedContents) + FromWorkflow(b);
    var a4, b4 := Optional(a.currentContents) + a5, Optional(b.currentContents) + b5;
    var a3, b3 := [OperationByte(a.operation)] + a4, [OperationByte(b.operation)] + b4;
    var a2, b2 := Field(a.configurationPath) + a3, Field(b.configurationPath) + b3;
    var a1, b1 := Field(ToolName(a.tool)) + a2, Field(ToolName(b.tool)) + b2;
    SplitAt(Ascii(DOMAIN), a1, Ascii(DOMAIN), b1);
    ToolNameFits(a.tool);
    ToolNameFits(b.tool);
    FieldReadOff(ToolName(a.tool), a2, ToolName(b.tool), b2);
    FieldReadOff(a.configurationPath, a3, b.configurationPath, b3);
    SplitAt([OperationByte(a.operation)], a4, [OperationByte(b.operation)], b4);
    OptionalReadOff(a.currentContents, a5, b.currentContents, b5);
    OptionalReadOff(a.proposedContents, FromWorkflow(a), b.proposedContents, FromWorkflow(b));
    WorkflowPartReadOff(a, b);
  }
}
