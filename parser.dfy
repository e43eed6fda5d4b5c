/**
 * The PID schema parser: the libyaml event loop that reads a schema of the
 * shape
 *
 *   mode: <SAE mode>
 *   endian: big | little
 *   pids:
 *     <pid>:
 *       name: <text>
 *       bytes: <byte count of the CAN response>
 *       unit: <unit name>
 *       expr: { type: uint8 | float, val: <infix formula> }
 *
 * and fills the context's mode/PID map and unit map.
 *
 * The events arrive as a sequence. The loop's locals (the map/key cursor,
 * the last mode and PID read, the entry being filled and the set of unit
 * names seen) form a `Cursor`; the context's fields form a `Schema`. `Step`
 * is the reference for one event and `Run` for a whole stream; the class
 * `Ctx` holds the context and its methods are proved to follow them.
 *
 * Failed assertions and reads of variables that were never assigned stop
 * the run with a `Fault` instead of a result code.
 */
module Parser {

  import opened Wrappers
  import opened LibC
  import opened Errors
  import Expression
  import NopBytes
  import Frames

  /**
   * The libyaml events the loop switches on. `ParserError` stands for
   * yaml_parser_parse reporting failure.
   */
  datatype Event =
    | NoEvent
    | StreamStart
    | StreamEnd
    | DocumentStart
    | DocumentEnd
    | Alias
    | Scalar(value: string)
    | SequenceStart
    | SequenceEnd
    | MappingStart
    | MappingEnd
    | ParserError

  /** parse_map: the mapping the cursor is in. */
  datatype Level = MapNone | MapRoot | MapPids | MapSpecificPid | MapExpr

  /** parse_key, in enum order; KeyNone means that the next scalar is a key. */
  datatype Key =
    | KeyMode
    | KeyEndian
    | KeyPids
    | KeyName
    | KeyBytes
    | KeyUnit
    | KeyType
    | KeyExpr
    | KeyVal
    | KeyNone

  /** struct parse_state. */
  datatype State = State(level: Level, key: Key)

  // ---------------------------------------------------------------------
  // The mode/PID key
  // ---------------------------------------------------------------------

  /**
   * The hash key of a mode/PID pair, `(mode << 16) | pid`: the mode above
   * the 16 PID bits. The two fields share no bit, so `|` is a sum.
   */
  function ModePidKey(mode: Frames.Mode, pid: Frames.Pid): (k: nat)
    ensures k < 0x100_0000
  {
    mode * 0x1_0000 + pid
  }

  /** The key gives back its mode and its PID. */
  lemma ModePidKeyRoundTrip(mode: Frames.Mode, pid: Frames.Pid)
    ensures ModePidKey(mode, pid) / 0x1_0000 == mode
    ensures ModePidKey(mode, pid) % 0x1_0000 == pid
  {
    var k := ModePidKey(mode, pid);
    assert k == mode * 0x1_0000 + pid;
    assert 0 <= pid < 0x1_0000;
  }

  /** Two pairs share a key exactly when they are the same pair. */
  lemma ModePidKeyInjective(m1: Frames.Mode, p1: Frames.Pid, m2: Frames.Mode, p2: Frames.Pid)
    ensures ModePidKey(m1, p1) == ModePidKey(m2, p2) <==> m1 == m2 && p1 == p2
  {
    ModePidKeyRoundTrip(m1, p1);
    ModePidKeyRoundTrip(m2, p2);
  }

  // ---------------------------------------------------------------------
  // find_key and find_type
  // ---------------------------------------------------------------------

  /** The static `keys` table: the schema word of each key. */
  function NameOf(k: Key): Option<string>
  {
    match k
    case KeyMode => Some("mode")
    case KeyEndian => Some("endian")
    case KeyPids => Some("pids")
    case KeyName => Some("name")
    case KeyBytes => Some("bytes")
    case KeyUnit => Some("unit")
    case KeyType => Some("type")
    case KeyExpr => Some("expr")
    case KeyVal => Some("val")
    case KeyNone => None
  }

  /** The keys the table lists, in enum order. */
  const Keys: seq<Key> :=
    [KeyMode, KeyEndian, KeyPids, KeyName, KeyBytes, KeyUnit, KeyType, KeyExpr, KeyVal]

  /** The key a schema word names, if any. */
  function KeyNamed(s: string): (r: Option<Key>)
    ensures r.Some? ==> NameOf(r.value) == Some(s)
    ensures r.None? ==> forall k :: NameOf(k) != Some(s)
  {
    if s == "mode" then Some(KeyMode)
    else if s == "endian" then Some(KeyEndian)
    else if s == "pids" then Some(KeyPids)
    else if s == "name" then Some(KeyName)
    else if s == "bytes" then Some(KeyBytes)
    else if s == "unit" then Some(KeyUnit)
    else if s == "type" then Some(KeyType)
    else if s == "expr" then Some(KeyExpr)
    else if s == "val" then Some(KeyVal)
    else None
  }

  /** A word names a key exactly when the table gives that key that word. */
  lemma KeyNamedIff(s: string, k: Key)
    ensures KeyNamed(s) == Some(k) <==> NameOf(k) == Some(s)
  {
    if NameOf(k) == Some(s) {
      match k
      case KeyMode => assert s == "mode";
      case KeyEndian => assert s == "endian";
      case KeyPids => assert s == "pids";
      case KeyName => assert s == "name";
      case KeyBytes => assert s == "bytes";
      case KeyUnit => assert s == "unit";
      case KeyType => assert s == "type";
      case KeyExpr => assert s == "expr";
      case KeyVal => assert s == "val";
    }
  }

  /** Every word that names a key is in the table `Keys` lists. */
  lemma KeysListed(s: string)
    ensures KeyNamed(s).Some? ==> exists j :: 0 <= j < |Keys| && NameOf(Keys[j]) == Some(s)
  {
    if KeyNamed(s).Some? {
      var k := KeyNamed(s).value;
      var j := match k
        case KeyMode => 0 case KeyEndian => 1 case KeyPids => 2 case KeyName => 3
        case KeyBytes => 4 case KeyUnit => 5 case KeyType => 6 case KeyExpr => 7
        case KeyVal => 8 case KeyNone => 9;
      assert Keys[j] == k;
    }
  }

  /**
   * find_key: the first table entry equal to `s`; None is the failed
   * assertion after the loop.
   */
  method FindKey(s: string) returns (r: Option<Key>)
    ensures r == KeyNamed(s)
  {
    for i := 0 to |Keys|
      invariant forall j :: 0 <= j < i ==> NameOf(Keys[j]) != Some(s)
    {
      if NameOf(Keys[i]) == Some(s) {
        KeyNamedIff(s, Keys[i]);
        return Some(Keys[i]);
      }
    }
    KeysListed(s);
    return None;
  }

  /** struct type_desc. */
  datatype TypeDesc = TypeDesc(name: string, bytes: nat)

  /** The static `types` table, indexed by the data type. */
  function TypeRow(t: Expression.PidDataType): Option<TypeDesc>
  {
    match t
    case Uint8 => Some(TypeDesc("uint8", 1))
    case Float => Some(TypeDesc("float", 4))
    case _ => None
  }

  /** The data types the table lists, in enum order. */
  const TypeOrder: seq<Expression.PidDataType> := [Expression.Uint8, Expression.Float]

  /** The data type a schema word names, if any. */
  function TypeNamed(s: string): (r: Option<Expression.PidDataType>)
    ensures r.Some? ==> TypeRow(r.value).Some? && TypeRow(r.value).value.name == s
    ensures r.None? ==> forall t :: TypeRow(t).Some? ==> TypeRow(t).value.name != s
  {
    if s == "uint8" then Some(Expression.Uint8)
    else if s == "float" then Some(Expression.Float)
    else None
  }

  /** A word names a type exactly when the table gives that type that word. */
  lemma TypeNamedIff(s: string, t: Expression.PidDataType)
    ensures TypeNamed(s) == Some(t) <==> (TypeRow(t).Some? && TypeRow(t).value.name == s)
  {
  }

  /**
   * find_type: the byte count and type of the first table row named `s`;
   * None is the failed assertion after the loop.
   */
  method FindType(s: string) returns (r: Option<(nat, Expression.PidDataType)>)
    ensures match TypeNamed(s)
            case None => r.None?
            case Some(t) => r == Some((TypeRow(t).value.bytes, t))
  {
    for i := 0 to |TypeOrder|
      invariant forall j :: 0 <= j < i ==> TypeRow(TypeOrder[j]).value.name != s
    {
      var row := TypeRow(TypeOrder[i]).value;
      if row.name == s {
        return Some((row.bytes, TypeOrder[i]));
      }
    }
    assert s != TypeRow(TypeOrder[0]).value.name && s != TypeRow(TypeOrder[1]).value.name;
    return None;
  }

  /**
   * The table agrees with the passthrough format checker: a type the parser
   * knows, with the byte count the table gives it, passes the checker, and
   * that count is the type's storage size.
   */
  lemma FindTypeAgreesWithChecker(s: string)
    requires TypeNamed(s).Some?
    ensures var bytes := TypeRow(TypeNamed(s).value).value.bytes;
            NopBytes.Check(NopBytes.NopDescriptor(s, bytes)) == Success(true)
            && NopBytes.Capacity(s) == Some(bytes)
  {
    var bytes := TypeRow(TypeNamed(s).value).value.bytes;
    if s == "uint8" {
      NopBytes.WidthTable(s, bytes);
    } else {
      NopBytes.WidthTable(s, bytes);
    }
  }

  // ---------------------------------------------------------------------
  // The context and the loop's locals
  // ---------------------------------------------------------------------

  /**
   * struct parse_pid_ctx, the value of the mode/PID map: the public
   * descriptor (name, unit ID, byte count and data type of the result),
   * the byte count of the CAN response and the compiled expression. None
   * marks a field the parser has not assigned.
   */
  datatype PidEntry = PidEntry(
    name: Option<string>,
    unit: Option<nat>,
    bytes: Option<nat>,
    pidType: Option<Expression.PidDataType>,
    canBytes: Option<Frames.Byte>,
    expr: Option<Expression.Expr>)

  /** A freshly inserted entry. */
  const Unset: PidEntry := PidEntry(None, None, None, None, None, None)

  /**
   * struct yobd_ctx as a value: the byte order, the next unit ID, the unit
   * map (ID to unit name) and the mode/PID map.
   */
  datatype Schema = Schema(
    bigEndian: Option<bool>,
    nextUnitId: nat,
    unitMap: map<nat, string>,
    modePidMap: map<nat, PidEntry>)

  /** The context yobd_get_ctx hands to the parser. */
  const Empty: Schema := Schema(None, 0, map[], map[])

  /**
   * The locals of `parse`: the cursor, the last mode and PID read, the key
   * of the entry `parse_ctx` points at, and the set of unit names seen.
   */
  datatype Cursor = Cursor(
    state: State,
    mode: Option<Frames.Mode>,
    pid: Option<Frames.Pid>,
    current: Option<nat>,
    units: set<string>)

  const Start: Cursor := Cursor(State(MapNone, KeyNone), None, None, None, {})

  datatype Session = Session(cur: Cursor, schema: Schema)

  /** Why the process would stop instead of returning. */
  datatype Fault =
    | AssertionFailed
    | Uninitialized                               // a read of a local or field never assigned
    | BadExpression(error: Expression.SyError)    // an assertion inside parse_expr

  /** What one event does: go on, leave the loop with a code, or abort. */
  datatype Transition = Continue(next: Session) | Stop(err: YobdErr) | Abort(fault: Fault)

  datatype Ending = Finished(err: YobdErr) | Aborted(fault: Fault)

  /**
   * put_mode_pid: an absent key gets a fresh entry; a present key keeps its
   * entry.
   */
  function PutModePid(m: map<nat, PidEntry>, k: nat): (r: map<nat, PidEntry>)
    ensures r.Keys == m.Keys + {k}
    ensures forall k' :: k' in m ==> r[k'] == m[k']
    ensures k !in m ==> r[k] == Unset
  {
    if k in m then m else m[k := Unset]
  }

  /** get_mode_pid: the entry of a mode/PID pair, None for NULL. */
  function GetModePid(c: Schema, mode: Frames.Mode, pid: Frames.Pid): (r: Option<PidEntry>)
    ensures r.Some? <==> ModePidKey(mode, pid) in c.modePidMap
    ensures r.Some? ==> r.value == c.modePidMap[ModePidKey(mode, pid)]
  {
    var k := ModePidKey(mode, pid);
    if k in c.modePidMap then Some(c.modePidMap[k]) else None
  }

  /** After a put, the pair is found, and every other pair finds what it found before. */
  lemma GetAfterPut(c: Schema, mode: Frames.Mode, pid: Frames.Pid, m: Frames.Mode, p: Frames.Pid)
    ensures var c' := c.(modePidMap := PutModePid(c.modePidMap, ModePidKey(mode, pid)));
            GetModePid(c', mode, pid).Some?
            && (ModePidKey(mode, pid) in c.modePidMap ==> GetModePid(c', mode, pid) == GetModePid(c, mode, pid))
            && ((m, p) != (mode, pid) ==> GetModePid(c', m, p) == GetModePid(c, m, p))
  {
    ModePidKeyInjective(mode, pid, m, p);
  }

  // ---------------------------------------------------------------------
  // One event
  // ---------------------------------------------------------------------

  function Move(s: Session, level: Level, key: Key): Transition
  {
    Continue(s.(cur := s.cur.(state := State(level, key))))
  }

  /** A mapping start goes one level down. */
  function OnMappingStart(s: Session): (r: Transition)
    ensures !r.Stop?
    ensures r.Continue? ==> r.next.schema.unitMap == s.schema.unitMap
                            && r.next.schema.nextUnitId == s.schema.nextUnitId
                            && r.next.schema.bigEndian == s.schema.bigEndian
                            && r.next.cur.units == s.cur.units
                            && s.schema.modePidMap.Keys <= r.next.schema.modePidMap.Keys
  {
    match s.cur.state.level
    case MapNone => Move(s, MapRoot, s.cur.state.key)
    case MapRoot => Move(s, MapPids, s.cur.state.key)
    case MapPids =>
      if s.cur.mode.None? || s.cur.pid.None? then Abort(Uninitialized)
      else
        var k := ModePidKey(s.cur.mode.value, s.cur.pid.value);
        var m := PutModePid(s.schema.modePidMap, k);
        Continue(Session(
          s.cur.(state := State(MapSpecificPid, s.cur.state.key), current := Some(k)),
          s.schema.(modePidMap := m[k := m[k].(name := None)])))
    case MapSpecificPid =>
      if s.cur.state.key == KeyExpr then Move(s, MapExpr, KeyNone) else Abort(AssertionFailed)
    case MapExpr => Abort(AssertionFailed)
  }

  /** A mapping end goes one level up. */
  function OnMappingEnd(s: Session): (r: Transition)
    ensures !r.Stop?
    ensures r.Abort? <==> s.cur.state.level == MapNone
    ensures r.Continue? ==> r.next.schema == s.schema && r.next.cur.units == s.cur.units
  {
    match s.cur.state.level
    case MapNone => Abort(AssertionFailed)
    case MapRoot => Continue(s)
    case MapPids => Move(s, MapRoot, s.cur.state.key)
    case MapSpecificPid => Move(s, MapPids, KeyPids)
    case MapExpr => Move(s, MapSpecificPid, s.cur.state.key)
  }

  /** The entry `parse_ctx` points at, if it points at one. */
  function Entry(s: Session): Option<PidEntry>
  {
    if s.cur.current.Some? && s.cur.current.value in s.schema.modePidMap
    then Some(s.schema.modePidMap[s.cur.current.value])
    else None
  }

  function SetEntry(s: Session, e: PidEntry): Session
    requires s.cur.current.Some?
  {
    s.(schema := s.schema.(modePidMap := s.schema.modePidMap[s.cur.current.value := e]))
  }

  /** The first use of a unit name: it gets the next ID in both maps and the entry. */
  function NewUnit(s: Session, val: string): Session
    requires Entry(s).Some?
  {
    var id := s.schema.nextUnitId;
    var e := Entry(s).value;
    Session(
      s.cur.(units := s.cur.units + {val}),
      s.schema.(
        nextUnitId := id + 1,
        unitMap := s.schema.unitMap[id := val],
        modePidMap := s.schema.modePidMap[s.cur.current.value := e.(unit := Some(id))]))
  }

  /** The ID the unit map gives `val`, searched below `n`. */
  function FindUnitId(units: map<nat, string>, val: string, n: nat): (r: Option<nat>)
    ensures r.Some? ==> r.value < n && r.value in units && units[r.value] == val
    ensures r.None? ==> forall id :: id < n && id in units ==> units[id] != val
  {
    if n == 0 then None
    else if n - 1 in units && units[n - 1] == val then Some(n - 1)
    else FindUnitId(units, val, n - 1)
  }

  /** The unit branch as written: a unit seen before leaves everything as it is. */
  function AssignUnitAsWritten(s: Session, val: string): (r: Session)
    requires Entry(s).Some?
    ensures val in s.cur.units ==> r == s
    ensures r.cur.units == s.cur.units + {val}
    ensures r.schema.modePidMap.Keys == s.schema.modePidMap.Keys
  {
    if val in s.cur.units then s else NewUnit(s, val)
  }

  /**
   * The unit branch as intended: a unit seen before gives the entry the ID
   * it already has; a new one is numbered as written.
   */
  function AssignUnit(s: Session, val: string): (r: Session)
    requires Entry(s).Some?
    ensures r.cur.units == s.cur.units + {val}
    ensures r.cur.state == s.cur.state && r.cur.current == s.cur.current
    ensures r.schema.modePidMap.Keys == s.schema.modePidMap.Keys
    ensures forall k :: k in s.schema.modePidMap && k != s.cur.current.value ==>
              r.schema.modePidMap[k] == s.schema.modePidMap[k]
  {
    if val in s.cur.units then
      match FindUnitId(s.schema.unitMap, val, s.schema.nextUnitId)
      case None => s
      case Some(id) => SetEntry(s, Entry(s).value.(unit := Some(id)))
    else NewUnit(s, val)
  }

  /** The caps parse_expr gives its two stacks. */
  const ExprCaps: Expression.Caps := Expression.Caps(Expression.OpStackSize, Expression.OutStackSize)

  /**
   * A scalar: a key word when no key is pending, otherwise the value of the
   * pending key, which must occur in the mapping the key belongs to.
   */
  function OnScalar(s: Session, val: string): (r: Transition)
    ensures !r.Stop?
    ensures r.Continue? ==> r.next.schema.modePidMap.Keys == s.schema.modePidMap.Keys
    ensures r.Continue? ==> (r.next.cur.state.key == KeyNone <==> s.cur.state.key != KeyNone)
  {
    var level := s.cur.state.level;
    var n := s.(cur := s.cur.(state := State(level, KeyNone)));
    match s.cur.state.key
    case KeyNone =>
      if KeyNamed(val).None? then Abort(AssertionFailed)
      else Move(s, level, KeyNamed(val).value)
    case KeyMode =>
      if level != MapRoot then Abort(AssertionFailed)
      else if StrToL(val, Base0).None? then Abort(AssertionFailed)
      else Continue(n.(cur := n.cur.(mode := Some(StrToL(val, Base0).value % 0x100))))
    case KeyEndian =>
      if level != MapRoot then Abort(AssertionFailed)
      else if val == "big" then Continue(n.(schema := n.schema.(bigEndian := Some(true))))
      else if val == "little" then Continue(n.(schema := n.schema.(bigEndian := Some(false))))
      else Abort(AssertionFailed)
    case KeyPids =>
      if level != MapPids then Abort(AssertionFailed)
      else if StrToL(val, Base0).None? then Abort(AssertionFailed)
      else Continue(n.(cur := n.cur.(pid := Some(StrToL(val, Base0).value % 0x1_0000))))
    case KeyName =>
      if level != MapSpecificPid then Abort(AssertionFailed)
      else if Entry(s).None? then Abort(Uninitialized)
      else if Entry(s).value.name.Some? then Abort(AssertionFailed)
      else Continue(SetEntry(n, Entry(s).value.(name := Some(val))))
    case KeyBytes =>
      if level != MapSpecificPid then Abort(AssertionFailed)
      else if Entry(s).None? then Abort(Uninitialized)
      else if StrToL(val, Base0).None? then Abort(AssertionFailed)
      else Continue(SetEntry(n, Entry(s).value.(canBytes := Some(StrToL(val, Base0).value % 0x100))))
    case KeyUnit =>
      if level != MapSpecificPid then Abort(AssertionFailed)
      else if Entry(s).None? then Abort(Uninitialized)
      else Continue(AssignUnit(n, val))
    case KeyType =>
      if level != MapExpr then Abort(AssertionFailed)
      else if Entry(s).None? then Abort(Uninitialized)
      else if TypeNamed(val).None? then Abort(AssertionFailed)
      else
        var t := TypeNamed(val).value;
        Continue(SetEntry(n, Entry(s).value.(bytes := Some(TypeRow(t).value.bytes), pidType := Some(t))))
    case KeyExpr =>
      if level != MapSpecificPid then Abort(AssertionFailed)
      else Move(s, MapExpr, KeyNone)
    case KeyVal =>
      if level != MapExpr then Abort(AssertionFailed)
      else if Entry(s).None? || Entry(s).value.pidType.None? then Abort(Uninitialized)
      else
        match Expression.Translate(val, Entry(s).value.pidType.value, ExprCaps)
        case Failure(e) => Abort(BadExpression(e))
        case Success(out) =>
          Continue(SetEntry(n, Entry(s).value.(expr := Some(Expression.Expr(|out|, out)))))
  }

  /** The keys whose value goes into the entry of the current PID. */
  predicate FillsEntry(k: Key)
  {
    k.KeyName? || k.KeyBytes? || k.KeyUnit? || k.KeyType? || k.KeyVal?
  }

  /** One pass of the loop body. */
  function Step(s: Session, e: Event): (r: Transition)
    ensures r.Stop? <==> e in {DocumentEnd, StreamEnd, ParserError}
    ensures r.Stop? ==> r.err == (if e == ParserError then Oom else Ok)
  {
    match e
    case NoEvent => Abort(AssertionFailed)
    case Alias => Abort(AssertionFailed)
    case SequenceStart => Abort(AssertionFailed)
    case SequenceEnd => Abort(AssertionFailed)
    case StreamStart => Continue(s)
    case DocumentStart => Continue(s)
    case DocumentEnd => Stop(Ok)
    case StreamEnd => Stop(Ok)
    case ParserError => Stop(Oom)
    case MappingStart => OnMappingStart(s)
    case MappingEnd => OnMappingEnd(s)
    case Scalar(v) => OnScalar(s, v)
  }

  /**
   * The loop over a stream of events: the result and the context it leaves.
   * A stream that ends before an end event is a failure of the YAML parser.
   */
  function Run(s: Session, events: seq<Event>): (r: (Ending, Schema))
    ensures r.0.Finished? ==> r.0.err == Ok || r.0.err == Oom
    decreases |events|
  {
    if events == [] then (Finished(Oom), s.schema)
    else
      match Step(s, events[0])
      case Continue(n) => Run(n, events[1..])
      case Stop(err) => (Finished(err), s.schema)
      case Abort(f) => (Aborted(f), s.schema)
  }

  /**
   * The loop body as written: Step, except that the unit branch is
   * AssignUnitAsWritten, so a unit name seen before leaves the entry's unit
   * as it was.
   */
  function StepAsWritten(s: Session, e: Event): Transition
  {
    if e.Scalar? && s.cur.state.key == KeyUnit && s.cur.state.level == MapSpecificPid && Entry(s).Some? then
      Continue(AssignUnitAsWritten(s.(cur := s.cur.(state := State(MapSpecificPid, KeyNone))), e.value))
    else Step(s, e)
  }

  /** The loop as written over a stream of events. */
  function RunAsWritten(s: Session, events: seq<Event>): (Ending, Schema)
    decreases |events|
  {
    if events == [] then (Finished(Oom), s.schema)
    else
      match StepAsWritten(s, events[0])
      case Continue(n) => RunAsWritten(n, events[1..])
      case Stop(err) => (Finished(err), s.schema)
      case Abort(f) => (Aborted(f), s.schema)
  }

  // ---------------------------------------------------------------------
  // The context object
  // ---------------------------------------------------------------------

  /** struct yobd_ctx. */
  class Ctx {
    var bigEndian: Option<bool>
    var nextUnitId: nat
    var unitMap: map<nat, string>
    var modePidMap: map<nat, PidEntry>

    /** The context before parsing: no byte order yet, empty maps, unit ID 0 next. */
    constructor ()
      ensures Value() == Empty
    {
      bigEndian := None;
      nextUnitId := 0;
      unitMap := map[];
      modePidMap := map[];
    }

    function Value(): Schema
      reads this
    {
      Schema(bigEndian, nextUnitId, unitMap, modePidMap)
    }

    /** get_mode_pid on this context. */
    function Get(mode: Frames.Mode, pid: Frames.Pid): (r: Option<PidEntry>)
      reads this
      ensures r.Some? <==> ModePidKey(mode, pid) in modePidMap
      ensures r.Some? ==> r.value == modePidMap[ModePidKey(mode, pid)]
    {
      GetModePid(Value(), mode, pid)
    }

    /**
     * put_mode_pid: afterwards the pair is found, its old entry is kept if
     * it had one, and no other pair's entry changes.
     */
    method Put(mode: Frames.Mode, pid: Frames.Pid) returns (k: nat)
      modifies this
      ensures k == ModePidKey(mode, pid)
      ensures modePidMap == PutModePid(old(modePidMap), k)
      ensures Get(mode, pid).Some?
      ensures old(Get(mode, pid)).Some? ==> Get(mode, pid) == old(Get(mode, pid))
      ensures forall m: Frames.Mode, p: Frames.Pid :: (m, p) != (mode, pid) ==> Get(m, p) == old(Get(m, p))
      ensures bigEndian == old(bigEndian) && nextUnitId == old(nextUnitId) && unitMap == old(unitMap)
    {
      k := ModePidKey(mode, pid);
      if k !in modePidMap {
        modePidMap := modePidMap[k := Unset];
      }
      forall m: Frames.Mode, p: Frames.Pid
        ensures (m, p) != (mode, pid) ==> Get(m, p) == old(Get(m, p))
      {
        ModePidKeyInjective(mode, pid, m, p);
      }
    }

    /** The mapping-start branch of the loop. */
    method EnterMapping(cur: Cursor) returns (t: Transition)
      modifies this
      ensures t == OnMappingStart(Session(cur, old(Value())))
      ensures t.Continue? ==> t.next.schema == Value()
      ensures !t.Continue? ==> Value() == old(Value())
    {
      match cur.state.level
      case MapNone =>
        t := Continue(Session(cur.(state := State(MapRoot, cur.state.key)), Value()));
      case MapRoot =>
        t := Continue(Session(cur.(state := State(MapPids, cur.state.key)), Value()));
      case MapPids =>
        if cur.mode.None? || cur.pid.None? {
          t := Abort(Uninitialized);
        } else {
          var k := Put(cur.mode.value, cur.pid.value);
          modePidMap := modePidMap[k := modePidMap[k].(name := None)];
          t := Continue(Session(cur.(state := State(MapSpecificPid, cur.state.key), current := Some(k)), Value()));
        }
      case MapSpecificPid =>
        if cur.state.key == KeyExpr {
          t := Continue(Session(cur.(state := State(MapExpr, KeyNone)), Value()));
        } else {
          t := Abort(AssertionFailed);
        }
      case MapExpr =>
        t := Abort(AssertionFailed);
    }

    /** The mapping-end branch of the loop. */
    method LeaveMapping(cur: Cursor) returns (t: Transition)
      ensures t == OnMappingEnd(Session(cur, Value()))
      ensures t.Continue? ==> t.next.schema == Value()
    {
      match cur.state.level
      case MapNone =>
        t := Abort(AssertionFailed);
      case MapRoot =>
        t := Continue(Session(cur, Value()));
      case MapPids =>
        t := Continue(Session(cur.(state := State(MapRoot, cur.state.key)), Value()));
      case MapSpecificPid =>
        t := Continue(Session(cur.(state := State(MapPids, KeyPids)), Value()));
      case MapExpr =>
        t := Continue(Session(cur.(state := State(MapSpecificPid, cur.state.key)), Value()));
    }

    /** Replaces the entry `parse_ctx` points at. */
    method SetCurrent(k: nat, e: PidEntry)
      modifies this
      ensures modePidMap == old(modePidMap)[k := e]
      ensures bigEndian == old(bigEndian) && nextUnitId == old(nextUnitId) && unitMap == old(unitMap)
    {
      modePidMap := modePidMap[k := e];
    }

    /**
     * The unit branch, with a unit seen before given the ID it has; returns
     * the new set of unit names.
     */
    method TakeUnit(cur: Cursor, val: string) returns (units: set<string>)
      requires Entry(Session(cur, Value())).Some?
      modifies this
      ensures AssignUnit(Session(cur, old(Value())), val) == Session(cur.(units := units), Value())
    {
      var k := cur.current.value;
      if val in cur.units {
        var id := FindUnitId(unitMap, val, nextUnitId);
        if id.Some? {
          modePidMap := modePidMap[k := modePidMap[k].(unit := id)];
        }
        return cur.units;
      }
      var id := nextUnitId;
      modePidMap := modePidMap[k := modePidMap[k].(unit := Some(id))];
      nextUnitId := nextUnitId + 1;
      unitMap := unitMap[id := val];
      units := cur.units + {val};
    }

    /** The scalar branches that read a number or a word into the locals or the byte order. */
    method TakeRootScalar(cur: Cursor, val: string) returns (t: Transition)
      requires !FillsEntry(cur.state.key)
      modifies this
      ensures t == OnScalar(Session(cur, old(Value())), val)
      ensures t.Continue? ==> t.next.schema == Value()
      ensures !t.Continue? ==> Value() == old(Value())
    {
      var level := cur.state.level;
      var n := cur.(state := State(level, KeyNone));
      match cur.state.key
      case KeyNone =>
        var k := FindKey(val);
        if k.None? {
          t := Abort(AssertionFailed);
        } else {
          t := Continue(Session(cur.(state := State(level, k.value)), Value()));
        }
      case KeyMode =>
        if level != MapRoot {
          t := Abort(AssertionFailed);
        } else {
          var v := StrToL(val, Base0);
          if v.None? {
            t := Abort(AssertionFailed);
          } else {
            t := Continue(Session(n.(mode := Some(v.value % 0x100)), Value()));
          }
        }
      case KeyEndian =>
        if level != MapRoot {
          t := Abort(AssertionFailed);
        } else if val == "big" {
          bigEndian := Some(true);
          t := Continue(Session(n, Value()));
        } else if val == "little" {
          bigEndian := Some(false);
          t := Continue(Session(n, Value()));
        } else {
          t := Abort(AssertionFailed);
        }
      case KeyPids =>
        if level != MapPids {
          t := Abort(AssertionFailed);
        } else {
          var v := StrToL(val, Base0);
          if v.None? {
            t := Abort(AssertionFailed);
          } else {
            t := Continue(Session(n.(pid := Some(v.value % 0x1_0000)), Value()));
          }
        }
      case KeyExpr =>
        if level != MapSpecificPid {
          t := Abort(AssertionFailed);
        } else {
          t := Continue(Session(cur.(state := State(MapExpr, KeyNone)), Value()));
        }
    }

    /** The scalar branches that fill the entry of the current PID. */
    method TakePidScalar(cur: Cursor, val: string) returns (t: Transition)
      requires FillsEntry(cur.state.key)
      modifies this
      ensures t == OnScalar(Session(cur, old(Value())), val)
      ensures t.Continue? ==> t.next.schema == Value()
      ensures !t.Continue? ==> Value() == old(Value())
    {
      var level := cur.state.level;
      var n := cur.(state := State(level, KeyNone));
      var wanted := if cur.state.key in {KeyType, KeyVal} then MapExpr else MapSpecificPid;
      if level != wanted {
        return Abort(AssertionFailed);
      }
      if cur.current.None? || cur.current.value !in modePidMap {
        return Abort(Uninitialized);
      }
      var k := cur.current.value;
      var e := modePidMap[k];
      match cur.state.key
      case KeyName =>
        if e.name.Some? {
          t := Abort(AssertionFailed);
        } else {
          SetCurrent(k, e.(name := Some(val)));
          t := Continue(Session(n, Value()));
        }
      case KeyBytes =>
        var v := StrToL(val, Base0);
        if v.None? {
          t := Abort(AssertionFailed);
        } else {
          SetCurrent(k, e.(canBytes := Some(v.value % 0x100)));
          t := Continue(Session(n, Value()));
        }
      case KeyUnit =>
        var units := TakeUnit(n, val);
        t := Continue(Session(n.(units := units), Value()));
      case KeyType =>
        var found := FindType(val);
        if found.None? {
          t := Abort(AssertionFailed);
        } else {
          SetCurrent(k, e.(bytes := Some(found.value.0), pidType := Some(found.value.1)));
          t := Continue(Session(n, Value()));
        }
      case KeyVal =>
        if e.pidType.None? {
          t := Abort(Uninitialized);
        } else {
          var x := Expression.ParseExpr(val, e.pidType.value);
          if x.Failure? {
            t := Abort(BadExpression(x.error));
          } else {
            SetCurrent(k, e.(expr := Some(x.value)));
            t := Continue(Session(n, Value()));
          }
        }
    }

    /** One pass of the loop body. */
    method Handle(cur: Cursor, e: Event) returns (t: Transition)
      modifies this
      ensures t == Step(Session(cur, old(Value())), e)
      ensures t.Continue? ==> t.next.schema == Value()
      ensures !t.Continue? ==> Value() == old(Value())
    {
      match e
      case NoEvent => t := Abort(AssertionFailed);
      case Alias => t := Abort(AssertionFailed);
      case SequenceStart => t := Abort(AssertionFailed);
      case SequenceEnd => t := Abort(AssertionFailed);
      case StreamStart => t := Continue(Session(cur, Value()));
      case DocumentStart => t := Continue(Session(cur, Value()));
      case DocumentEnd => t := Stop(Ok);
      case StreamEnd => t := Stop(Ok);
      case ParserError => t := Stop(Oom);
      case MappingStart => t := EnterMapping(cur);
      case MappingEnd => t := LeaveMapping(cur);
      case Scalar(v) =>
        if FillsEntry(cur.state.key) {
          t := TakePidScalar(cur, v);
        } else {
          t := TakeRootScalar(cur, v);
        }
    }

    /**
     * parse: handle events until an end event, a parser failure or a
     * fault; the result and the context left are those of `Run` from the
     * starting cursor.
     */
    method Parse(events: seq<Event>) returns (r: Ending)
      modifies this
      ensures (r, Value()) == Run(Session(Start, old(Value())), events)
    {
      var cur := Start;
      var i := 0;
      while i < |events|
        invariant 0 <= i <= |events|
        invariant Run(Session(Start, old(Value())), events) == Run(Session(cur, Value()), events[i..])
        decreases |events| - i
      {
        assert events[i..][0] == events[i] && events[i..][1..] == events[i + 1..];
        var t := Handle(cur, events[i]);
        match t
        case Stop(err) =>
          return Finished(err);
        case Abort(f) =>
          return Aborted(f);
        case Continue(next) =>
          cur := next.cur;
        i := i + 1;
      }
      return Finished(Oom);
    }
  }

  // ---------------------------------------------------------------------
  // yobd_get_ctx
  // ---------------------------------------------------------------------

  /**
   * yobd_get_ctx once the schema file is open: a fresh context, parsed; the
   * context is handed out only when parsing returns YOBD_OK, and its units
   * are then well formed.
   */
  method Load(events: seq<Event>) returns (r: Ending, ctx: Ctx?)
    ensures r == Run(Session(Start, Empty), events).0
    ensures ctx != null <==> r == Finished(Ok)
    ensures ctx != null ==> ctx.Value() == Run(Session(Start, Empty), events).1
    ensures ctx != null ==> UnitsWellFormed(ctx.Value())
  {
    var c := new Ctx();
    r := c.Parse(events);
    RunKeepsInv(Session(Start, Empty), events);
    if r == Finished(Ok) {
      ctx := c;
    } else {
      ctx := null;
    }
  }

  // ---------------------------------------------------------------------
  // Properties of the loop
  // ---------------------------------------------------------------------

  /**
   * Unit IDs are handed out densely from 0, no two name the same unit, and
   * the unit of every PID entry is an ID the unit map knows.
   */
  ghost predicate UnitsWellFormed(c: Schema)
  {
    (forall id: nat :: id in c.unitMap <==> id < c.nextUnitId)
    && (forall i, j :: i in c.unitMap && j in c.unitMap && c.unitMap[i] == c.unitMap[j] ==> i == j)
    && (forall k :: k in c.modePidMap && c.modePidMap[k].unit.Some? ==> c.modePidMap[k].unit.value in c.unitMap)
  }

  /**
   * What each pass of the loop keeps: the units are well formed, the set of
   * unit names seen is the set of names in the unit map, and inside a PID
   * block `parse_ctx` points at an entry of the map.
   */
  ghost predicate Inv(s: Session)
  {
    UnitsWellFormed(s.schema)
    && s.cur.units == s.schema.unitMap.Values
    && (s.cur.state.level in {MapSpecificPid, MapExpr} ==> Entry(s).Some?)
  }

  /** The loop starts with the invariant in force. */
  lemma StartInv()
    ensures Inv(Session(Start, Empty))
  {
  }

  /** Adding a fresh ID to a map adds its name to the names. */
  lemma ValuesOfFreshUpdate(m: map<nat, string>, id: nat, val: string)
    requires id !in m
    ensures m[id := val].Values == m.Values + {val}
  {
    forall x | x in m[id := val].Values
      ensures x in m.Values + {val}
    {
      var j :| j in m[id := val] && m[id := val][j] == x;
      if j != id {
        assert m[j] == x;
      }
    }
    forall x | x in m.Values + {val}
      ensures x in m[id := val].Values
    {
      if x != val {
        var j :| j in m && m[j] == x;
        assert m[id := val][j] == x;
      } else {
        assert m[id := val][id] == x;
      }
    }
  }

  /** A unit name used for the first time gets the next ID, which was free. */
  lemma NewUnitGetsNextId(s: Session, val: string)
    requires Inv(s) && Entry(s).Some? && val !in s.cur.units
    ensures var n := AssignUnit(s, val);
            var id := s.schema.nextUnitId;
            id !in s.schema.unitMap
            && Entry(n).Some? && Entry(n).value.unit == Some(id)
            && n.schema.nextUnitId == id + 1
            && n.schema.unitMap.Keys == s.schema.unitMap.Keys + {id}
            && n.schema.unitMap[id] == val
            && n.cur.units == s.cur.units + {val}
  {
  }

  /** A unit name seen before leaves the counter, the unit map and the set of names as they are. */
  lemma RepeatedUnitKeepsCounters(s: Session, val: string)
    requires Entry(s).Some? && val in s.cur.units
    ensures var n := AssignUnit(s, val);
            n.schema.nextUnitId == s.schema.nextUnitId
            && n.schema.unitMap == s.schema.unitMap
            && n.cur.units == s.cur.units
    ensures AssignUnitAsWritten(s, val) == s
  {
  }

  /**
   * After the unit scalar the entry's unit ID names that unit, whether the
   * name is new or seen before, and the invariant still holds.
   */
  lemma UnitIdsNameTheirUnit(s: Session, val: string)
    requires Inv(s) && Entry(s).Some?
    ensures var n := AssignUnit(s, val);
            Inv(n) && Entry(n).Some? && Entry(n).value.unit.Some?
            && Entry(n).value.unit.value in n.schema.unitMap
            && n.schema.unitMap[Entry(n).value.unit.value] == val
  {
    var c := s.schema;
    if val in s.cur.units {
      var j :| j in c.unitMap && c.unitMap[j] == val;
      assert j < c.nextUnitId;
      var found := FindUnitId(c.unitMap, val, c.nextUnitId);
      assert found.Some?;
      SetEntryKeepsInv(s, Entry(s).value.(unit := found));
    } else {
      var id := c.nextUnitId;
      var n := AssignUnit(s, val);
      ValuesOfFreshUpdate(c.unitMap, id, val);
      assert n.schema.unitMap == c.unitMap[id := val];
    }
  }

  /** Replacing the current entry by one whose unit is known keeps the invariant. */
  lemma SetEntryKeepsInv(s: Session, e: PidEntry)
    requires Inv(s) && Entry(s).Some? && (e.unit.Some? ==> e.unit.value in s.schema.unitMap)
    ensures Inv(SetEntry(s, e))
  {
  }

  /**
   * As written, a unit name seen before leaves the entry without a unit ID
   * when the entry had none, while the intended version gives it the ID the
   * name already has.
   */
  lemma RepeatedUnitLeftUnsetAsWritten(s: Session, val: string)
    requires Inv(s) && Entry(s).Some? && Entry(s).value.unit.None? && val in s.cur.units
    ensures Entry(AssignUnitAsWritten(s, val)).value.unit.None?
    ensures Entry(AssignUnit(s, val)).value.unit.Some?
  {
    UnitIdsNameTheirUnit(s, val);
  }

  /** A mapping start keeps the invariant. */
  lemma MappingStartKeepsInv(s: Session)
    requires Inv(s)
    ensures Step(s, MappingStart).Continue? ==> Inv(Step(s, MappingStart).next)
  {
    if s.cur.state.level == MapPids && s.cur.mode.Some? && s.cur.pid.Some? {
      var n := Step(s, MappingStart).next;
      assert Entry(n).Some?;
      assert n.schema.unitMap == s.schema.unitMap;
    }
  }

  /** A scalar that fills the current entry keeps the invariant. */
  lemma EntryScalarKeepsInv(s: Session, val: string)
    requires Inv(s) && FillsEntry(s.cur.state.key)
    ensures Step(s, Scalar(val)).Continue? ==> Inv(Step(s, Scalar(val)).next)
  {
    if Step(s, Scalar(val)).Continue? {
      var n := s.(cur := s.cur.(state := State(s.cur.state.level, KeyNone)));
      assert Inv(n) && Entry(n) == Entry(s);
      var e := Entry(s).value;
      match s.cur.state.key
      case KeyUnit => UnitIdsNameTheirUnit(n, val);
      case KeyName => SetEntryKeepsInv(n, e.(name := Some(val)));
      case KeyBytes => SetEntryKeepsInv(n, e.(canBytes := Some(StrToL(val, Base0).value % 0x100)));
      case KeyType =>
        var t := TypeNamed(val).value;
        SetEntryKeepsInv(n, e.(bytes := Some(TypeRow(t).value.bytes), pidType := Some(t)));
      case KeyVal =>
        var out := Expression.Translate(val, e.pidType.value, ExprCaps).value;
        SetEntryKeepsInv(n, e.(expr := Some(Expression.Expr(|out|, out))));
    }
  }

  /** A scalar keeps the invariant. */
  lemma ScalarKeepsInv(s: Session, val: string)
    requires Inv(s)
    ensures Step(s, Scalar(val)).Continue? ==> Inv(Step(s, Scalar(val)).next)
  {
    if FillsEntry(s.cur.state.key) {
      EntryScalarKeepsInv(s, val);
    }
  }

  /** Every pass of the loop keeps the invariant. */
  lemma StepKeepsInv(s: Session, e: Event)
    requires Inv(s)
    ensures Step(s, e).Continue? ==> Inv(Step(s, e).next)
  {
    match e
    case MappingStart => MappingStartKeepsInv(s);
    case Scalar(val) => ScalarKeepsInv(s, val);
    case _ =>
  }

  /** The whole loop keeps the units well formed, whatever way it ends. */
  lemma {:induction false} RunKeepsInv(s: Session, events: seq<Event>)
    requires Inv(s)
    ensures UnitsWellFormed(Run(s, events).1)
    decreases |events|
  {
    if events != [] {
      StepKeepsInv(s, events[0]);
      if Step(s, events[0]).Continue? {
        RunKeepsInv(Step(s, events[0]).next, events[1..]);
      }
    }
  }

  /**
   * The loop body as written does what the corrected one does, except on
   * the value of a unit key whose name was seen before.
   */
  lemma StepAsWrittenDiffersOnlyOnRepeatedUnit(s: Session, e: Event)
    ensures StepAsWritten(s, e) != Step(s, e) ==>
              e.Scalar? && s.cur.state.key == KeyUnit && e.value in s.cur.units
  {
  }

  /** A pass of the loop as written keeps the invariant too. */
  lemma StepAsWrittenKeepsInv(s: Session, e: Event)
    requires Inv(s)
    ensures StepAsWritten(s, e).Continue? ==> Inv(StepAsWritten(s, e).next)
  {
    if e.Scalar? && s.cur.state.key == KeyUnit && s.cur.state.level == MapSpecificPid && Entry(s).Some? {
      var n := s.(cur := s.cur.(state := State(MapSpecificPid, KeyNone)));
      assert Inv(n) && Entry(n) == Entry(s);
      if e.value !in n.cur.units {
        UnitIdsNameTheirUnit(n, e.value);
      }
    } else {
      StepKeepsInv(s, e);
    }
  }

  /**
   * The loop as written also keeps the units well formed: an entry left
   * without a unit ID is exempt from the invariant.
   */
  lemma {:induction false} RunAsWrittenKeepsInv(s: Session, events: seq<Event>)
    requires Inv(s)
    ensures UnitsWellFormed(RunAsWritten(s, events).1)
    decreases |events|
  {
    if events != [] {
      StepAsWrittenKeepsInv(s, events[0]);
      if StepAsWritten(s, events[0]).Continue? {
        RunAsWrittenKeepsInv(StepAsWritten(s, events[0]).next, events[1..]);
      }
    }
  }

  /** Inside a PID block `parse_ctx` is never NULL when a field of the entry is read. */
  lemma EntryAlwaysSet(s: Session, val: string)
    requires Inv(s) && s.cur.state.key in {KeyName, KeyBytes, KeyUnit, KeyType}
    ensures Step(s, Scalar(val)) != Abort(Uninitialized)
  {
  }

  /** The level below each level, in the order the schema nests its mappings. */
  function Inner(l: Level): Level
  {
    match l
    case MapNone => MapRoot
    case MapRoot => MapPids
    case MapPids => MapSpecificPid
    case _ => MapExpr
  }

  /**
   * A mapping start goes one level down: always from none and the root,
   * from the pids mapping once a mode and a PID were read, and from a PID
   * block only after the `expr` key; it registers the PID block with a
   * cleared name and touches no other entry.
   */
  lemma MappingStartDescends(s: Session)
    ensures var t := Step(s, MappingStart);
            var l := s.cur.state.level;
            t.Continue? <==> (l in {MapNone, MapRoot}
                              || (l == MapPids && s.cur.mode.Some? && s.cur.pid.Some?)
                              || (l == MapSpecificPid && s.cur.state.key == KeyExpr))
    ensures var t := Step(s, MappingStart);
            t.Continue? ==> t.next.cur.state.level == Inner(s.cur.state.level)
    ensures var t := Step(s, MappingStart);
            t.Continue? && s.cur.state.level == MapPids ==>
              var mode := s.cur.mode.value;
              var pid := s.cur.pid.value;
              GetModePid(t.next.schema, mode, pid).Some?
              && GetModePid(t.next.schema, mode, pid).value.name.None?
              && forall m: Frames.Mode, p: Frames.Pid :: (m, p) != (mode, pid) ==>
                   GetModePid(t.next.schema, m, p) == GetModePid(s.schema, m, p)
  {
    var t := Step(s, MappingStart);
    if t.Continue? && s.cur.state.level == MapPids {
      forall m: Frames.Mode, p: Frames.Pid | (m, p) != (s.cur.mode.value, s.cur.pid.value)
        ensures GetModePid(t.next.schema, m, p) == GetModePid(s.schema, m, p)
      {
        ModePidKeyInjective(s.cur.mode.value, s.cur.pid.value, m, p);
      }
    }
  }

  /**
   * A mapping end goes one level up and leaves the context alone; leaving a
   * PID block makes the next scalar a PID again.
   */
  lemma MappingEndAscends(s: Session)
    ensures var t := Step(s, MappingEnd);
            t.Continue? <==> s.cur.state.level != MapNone
    ensures var t := Step(s, MappingEnd);
            t.Continue? ==> t.next.schema == s.schema
                            && Inner(t.next.cur.state.level) == (if s.cur.state.level == MapRoot then MapPids else s.cur.state.level)
                            && (s.cur.state.level == MapSpecificPid ==> t.next.cur.state.key == KeyPids)
  {
  }

  /** A mapping that opens and closes at once brings the cursor back to its level. */
  lemma NestingRoundTrip(s: Session)
    requires s.cur.state.level in {MapRoot, MapPids, MapSpecificPid}
    requires Step(s, MappingStart).Continue?
    ensures var n := Step(s, MappingStart).next;
            Step(n, MappingEnd).Continue? && Step(n, MappingEnd).next.cur.state.level == s.cur.state.level
  {
  }

  /**
   * With no key pending a scalar is a key word, accepted exactly when the
   * table names it; every other scalar is a value and clears the key.
   */
  lemma ScalarKeyDiscipline(s: Session, val: string)
    ensures s.cur.state.key == KeyNone ==>
              (Step(s, Scalar(val)).Continue? <==> KeyNamed(val).Some?)
    ensures s.cur.state.key == KeyNone && Step(s, Scalar(val)).Continue? ==>
              Step(s, Scalar(val)).next == s.(cur := s.cur.(state := State(s.cur.state.level, KeyNamed(val).value)))
    ensures s.cur.state.key != KeyNone && Step(s, Scalar(val)).Continue? ==>
              Step(s, Scalar(val)).next.cur.state.key == KeyNone
  {
  }

  /** The byte order: "big" and "little" set it, any other word is a failed assertion. */
  lemma EndianScalar(s: Session, val: string)
    requires s.cur.state == State(MapRoot, KeyEndian)
    ensures val == "big" ==> Step(s, Scalar(val)).Continue?
                             && Step(s, Scalar(val)).next.schema.bigEndian == Some(true)
    ensures val == "little" ==> Step(s, Scalar(val)).Continue?
                                && Step(s, Scalar(val)).next.schema.bigEndian == Some(false)
    ensures val != "big" && val != "little" ==> Step(s, Scalar(val)) == Abort(AssertionFailed)
  {
  }

  /** A document or stream end stops the loop with YOBD_OK, a parser failure with YOBD_OOM. */
  lemma EndEventsStop(s: Session, rest: seq<Event>)
    ensures Run(s, [DocumentEnd] + rest) == (Finished(Ok), s.schema)
    ensures Run(s, [StreamEnd] + rest) == (Finished(Ok), s.schema)
    ensures Run(s, [ParserError] + rest) == (Finished(Oom), s.schema)
  {
  }

  /**
   * As written, the key stays KeyPids when the pids mapping closes after a
   * PID block, so a root key word that follows the pids mapping is taken
   * for a PID value and fails the map assertion.
   */
  lemma RootKeyAfterPidsAborts(s: Session, word: string)
    requires s.cur.state.level == MapSpecificPid
    ensures var a := Step(s, MappingEnd);
            a.Continue?
            && var b := Step(a.next, MappingEnd);
               b.Continue? && b.next.cur.state == State(MapRoot, KeyPids)
               && Step(b.next, Scalar(word)) == Abort(AssertionFailed)
  {
  }
}
