/** The typed view of the `__exec__` record. Every engine step reads the record into this
    form, changes one field and writes all fifteen back. */
module ExecContext {
  import opened Values
  import opened Store

  datatype Context = Context(
    instruction: Value,
    queue: Value,
    running: bool,
    metadata: Value,
    defaultInstruction: Value,
    terminationDomain: Value,
    metaTypes: Value,
    auditOn: bool,
    drainMetaTrace: bool,
    dispatchCases: Value,
    dispatchDefault: Value,
    tableVersion: Value,
    dispatchHashes: Value,
    traceSource: Value,
    terminatedByMaxSteps: bool)

  function Parse(v: Value): Context {
    Context(
      v.GetOr("instruction", EmptyObject),
      v.GetOr("queue", EmptyList),
      v.GetBool("__running", true),
      v.GetOr("metadata", EmptyObject),
      v.GetOr("default_instruction", Null),
      v.GetOr("termination_domain", Null),
      v.GetOr("meta_instruction_types", EmptyList),
      v.GetBool("audit_on", true),
      v.GetBool("drain_meta_trace", false),
      v.GetOr("dispatch_cases", EmptyObject),
      v.GetOr("dispatch_default", EmptyObject),
      v.GetOr("dispatch_table_version", Str("")),
      v.GetOr("last_dispatch_hashes", Null),
      v.GetOr("__trace_source", Null),
      v.GetBool("__terminated_by_max_steps", false))
  }

  function ToValue(c: Context): Value {
    Object(map[
      "instruction" := c.instruction,
      "queue" := c.queue,
      "__running" := Bool(c.running),
      "metadata" := c.metadata,
      "default_instruction" := c.defaultInstruction,
      "termination_domain" := c.terminationDomain,
      "meta_instruction_types" := c.metaTypes,
      "audit_on" := Bool(c.auditOn),
      "drain_meta_trace" := Bool(c.drainMetaTrace),
      "dispatch_cases" := c.dispatchCases,
      "dispatch_default" := c.dispatchDefault,
      "dispatch_table_version" := c.tableVersion,
      "last_dispatch_hashes" := c.dispatchHashes,
      "__trace_source" := c.traceSource,
      "__terminated_by_max_steps" := Bool(c.terminatedByMaxSteps)])
  }

  /** The flags: running and auditing are on unless switched off, tracing of meta-instructions is
      off unless switched on, and a loop is cut off only if it says so. Anything else than a
      Boolean counts as nothing. */
  lemma FlagsByDefault(v: Value)
    ensures Parse(v).running <==> v.Get("__running") != Some(Bool(false))
    ensures Parse(v).auditOn <==> v.Get("audit_on") != Some(Bool(false))
    ensures Parse(v).drainMetaTrace <==> v.Get("drain_meta_trace") == Some(Bool(true))
    ensures Parse(v).terminatedByMaxSteps <==> v.Get("__terminated_by_max_steps") == Some(Bool(true))
  {
  }

  /** Where there is no record, or none of its fields, this is what the engine goes by. */
  lemma NothingByDefault(v: Value)
    requires v.Object? ==> v.fields.Keys !! CORE + CONFIGURATION + DISPATCH
    ensures Parse(v) == Context(
              Object(map[]), List([]), true, Object(map[]), Null, Null, List([]), true, false,
              Object(map[]), Object(map[]), Str(""), Null, Null, false)
  {
    NoneOf(v, CORE);
    NoneOf(v, CONFIGURATION);
    NoneOf(v, DISPATCH);
  }

  lemma NoneOf(v: Value, names: set<string>)
    requires v.Object? ==> v.fields.Keys !! names
    ensures forall name | name in names :: v.Get(name) == None
  {
  }

  const CORE: set<string> := {"instruction", "queue", "__running", "metadata", "default_instruction"}
  const CONFIGURATION: set<string> :=
    {"termination_domain", "meta_instruction_types", "audit_on", "drain_meta_trace", "dispatch_cases"}
  const DISPATCH: set<string> :=
    {"dispatch_default", "dispatch_table_version", "last_dispatch_hashes", "__trace_source",
      "__terminated_by_max_steps"}

  lemma FieldNames(c: Context)
    ensures ToValue(c).Object? && ToValue(c).fields.Keys == CORE + CONFIGURATION + DISPATCH
  {
  }

  lemma QueueFields(c: Context)
    ensures ToValue(c).Get("instruction") == Some(c.instruction)
    ensures ToValue(c).Get("queue") == Some(c.queue)
    ensures ToValue(c).Get("__running") == Some(Bool(c.running))
  {
  }

  lemma DefaultFields(c: Context)
    ensures ToValue(c).Get("metadata") == Some(c.metadata)
    ensures ToValue(c).Get("default_instruction") == Some(c.defaultInstruction)
  {
  }

  lemma CoreFields(c: Context)
    ensures ToValue(c).Get("instruction") == Some(c.instruction)
    ensures ToValue(c).Get("queue") == Some(c.queue)
    ensures ToValue(c).Get("__running") == Some(Bool(c.running))
    ensures ToValue(c).Get("metadata") == Some(c.metadata)
    ensures ToValue(c).Get("default_instruction") == Some(c.defaultInstruction)
  {
    hide ToValue;
    QueueFields(c);
    DefaultFields(c);
  }

  lemma ConfigurationFields(c: Context)
    ensures ToValue(c).Get("termination_domain") == Some(c.terminationDomain)
    ensures ToValue(c).Get("meta_instruction_types") == Some(c.metaTypes)
    ensures ToValue(c).Get("audit_on") == Some(Bool(c.auditOn))
    ensures ToValue(c).Get("drain_meta_trace") == Some(Bool(c.drainMetaTrace))
    ensures ToValue(c).Get("dispatch_cases") == Some(c.dispatchCases)
  {
  }

  lemma DispatchFields(c: Context)
    ensures ToValue(c).Get("dispatch_default") == Some(c.dispatchDefault)
    ensures ToValue(c).Get("dispatch_table_version") == Some(c.tableVersion)
    ensures ToValue(c).Get("last_dispatch_hashes") == Some(c.dispatchHashes)
    ensures ToValue(c).Get("__trace_source") == Some(c.traceSource)
    ensures ToValue(c).Get("__terminated_by_max_steps") == Some(Bool(c.terminatedByMaxSteps))
  {
  }

  /** All fifteen fields survive the value form. */
  lemma RoundTrip(c: Context)
    ensures Parse(ToValue(c)) == c
  {
    hide ToValue;
    CoreFields(c);
    ConfigurationFields(c);
    DispatchFields(c);
  }
}
