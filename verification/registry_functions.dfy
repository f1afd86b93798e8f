// The function registry: a name-to-handler map that the evaluator looks
// operator names up in, the twelve core operators that registerCoreFunctions
// puts in it, and the argument count each core handler insists on.

module Registry {
  import opened Wrappers
  import opened Values
  import opened Sensors

  /** The core operators of the rule language. */
  datatype Builtin = GT | LT | EQ | NE | GTE | LTE | AND | OR | NOT | IF | SET | NOP
  {
    predicate IsComparison() {
      this == GT || this == LT || this == EQ || this == NE || this == GTE || this == LTE
    }
    predicate IsOrdering() {
      this == GT || this == LT || this == GTE || this == LTE
    }
  }

  /** A registered handler: a core operator or a zero-argument sensor read. */
  datatype Handler = Core(op: Builtin) | Sensor(kind: SensorKind)

  /** The name an operator is written with in a rule. */
  function OperatorName(op: Builtin): string {
    match op
    case GT => "GT"
    case LT => "LT"
    case EQ => "EQ"
    case NE => "NE"
    case GTE => "GTE"
    case LTE => "LTE"
    case AND => "AND"
    case OR => "OR"
    case NOT => "NOT"
    case IF => "IF"
    case SET => "SET"
    case NOP => "NOP"
  }

  /** The built-in dispatch: the chain of name tests of the evaluator. */
  function OperatorNamed(name: string): Option<Builtin> {
    if name == "NOP" then Some(NOP)
    else if name == "IF" then Some(IF)
    else if name == "SET" then Some(SET)
    else if name == "AND" then Some(AND)
    else if name == "OR" then Some(OR)
    else if name == "NOT" then Some(NOT)
    else if name == "EQ" then Some(EQ)
    else if name == "NE" then Some(NE)
    else if name == "GT" then Some(GT)
    else if name == "LT" then Some(LT)
    else if name == "GTE" then Some(GTE)
    else if name == "LTE" then Some(LTE)
    else None
  }

  /** Names and operators are in one-to-one correspondence. */
  lemma OperatorNameRoundTrip(op: Builtin, name: string)
    ensures OperatorNamed(OperatorName(op)) == Some(op)
    ensures OperatorNamed(name) == Some(op) ==> name == OperatorName(op)
  {
  }

  /**
   * The number of array elements (name included) a registry handler
   * accepts; NOP ignores its arguments.
   */
  function Arity(op: Builtin): Option<nat> {
    match op
    case NOT => Some(2)
    case IF => Some(4)
    case NOP => None
    case _ => Some(3)
  }

  /** The error a registry handler reports for a wrong argument count. */
  function ArityError(op: Builtin): ErrorCode {
    match op
    case AND | OR => AndOr
    case NOT => Not
    case IF => IfCondition
    case SET => BoolActuator
    case _ => ComparisonType
  }

  /** The entries registerCoreFunctions adds. */
  function CoreTable(): map<string, Handler> {
    map["GT" := Core(GT), "LT" := Core(LT), "EQ" := Core(EQ), "NE" := Core(NE),
        "GTE" := Core(GTE), "LTE" := Core(LTE), "AND" := Core(AND), "OR" := Core(OR),
        "NOT" := Core(NOT), "IF" := Core(IF), "SET" := Core(SET), "NOP" := Core(NOP)]
  }

  /**
   * The core table holds exactly the twelve operators, each under its own
   * name, so registry dispatch and built-in dispatch agree on every name.
   */
  lemma CoreTableIsBuiltIns(name: string)
    ensures name in CoreTable() <==> OperatorNamed(name).Some?
    ensures name in CoreTable() ==> CoreTable()[name] == Core(OperatorNamed(name).value)
  {
  }

  /** Registering into a map that already holds `added` on top of `base`. */
  lemma AddEntry(base: map<string, Handler>, added: map<string, Handler>, name: string, h: Handler)
    ensures (base + added)[name := h] == base + added[name := h]
  {
  }

  /** A FunctionRegistry (std::map from name to handler), filled in place. */
  class FunctionRegistry {
    var handlers: map<string, Handler>

    constructor()
      ensures handlers == map[]
    {
      handlers := map[];
    }

    /** registry[name] = handler: a later registration replaces an earlier one. */
    method Register(name: string, h: Handler)
      modifies this
      ensures handlers == old(handlers)[name := h]
    {
      handlers := handlers[name := h];
    }
  }

  method RegisterCoreFunctions(registry: FunctionRegistry)
    modifies registry
    ensures registry.handlers == old(registry.handlers) + CoreTable()
  {
    ghost var base := registry.handlers;
    ghost var added: map<string, Handler> := map[];
    assert base + added == base;
    registry.Register("GT", Core(GT));
    AddEntry(base, added, "GT", Core(GT));
    added := added["GT" := Core(GT)];
    registry.Register("LT", Core(LT));
    AddEntry(base, added, "LT", Core(LT));
    added := added["LT" := Core(LT)];
    registry.Register("EQ", Core(EQ));
    AddEntry(base, added, "EQ", Core(EQ));
    added := added["EQ" := Core(EQ)];
    registry.Register("NE", Core(NE));
    AddEntry(base, added, "NE", Core(NE));
    added := added["NE" := Core(NE)];
    registry.Register("GTE", Core(GTE));
    AddEntry(base, added, "GTE", Core(GTE));
    added := added["GTE" := Core(GTE)];
    registry.Register("LTE", Core(LTE));
    AddEntry(base, added, "LTE", Core(LTE));
    added := added["LTE" := Core(LTE)];
    registry.Register("AND", Core(AND));
    AddEntry(base, added, "AND", Core(AND));
    added := added["AND" := Core(AND)];
    registry.Register("OR", Core(OR));
    AddEntry(base, added, "OR", Core(OR));
    added := added["OR" := Core(OR)];
    registry.Register("NOT", Core(NOT));
    AddEntry(base, added, "NOT", Core(NOT));
    added := added["NOT" := Core(NOT)];
    registry.Register("IF", Core(IF));
    AddEntry(base, added, "IF", Core(IF));
    added := added["IF" := Core(IF)];
    registry.Register("SET", Core(SET));
    AddEntry(base, added, "SET", Core(SET));
    added := added["SET" := Core(SET)];
    registry.Register("NOP", Core(NOP));
    AddEntry(base, added, "NOP", Core(NOP));
    added := added["NOP" := Core(NOP)];
  }
}
