/** The self-contained helpers of the VTK wrapper generator
    (vistrails/packages/vtk/generate/parse.py): naming of overloaded methods,
    conversion of C type names into port types, the allowed-type test, the
    pruning of redundant overload signatures and the enum-value collection of
    SetXToY state methods. */
module VtkParse {
  import opened Wrappers
  import Decimal

  /** A Python value as the method-signature parser produces it: a type name,
      None, or a list or tuple of such values. */
  datatype PyVal = Str(s: string) | NoneV | List(items: seq<PyVal>) | Tuple(items: seq<PyVal>)

  /** One overload: (return types, parameter types). */
  datatype Signature = Signature(ret: PyVal, params: PyVal)

  /** What get_port_types returns: a port type name, None, or a list of them. */
  datatype PortType = PortName(name: string) | NoPort | PortList(items: seq<PortType>)

  const TypeMap: map<string, string> := map[
    "int" := "basic:Integer",
    "long" := "basic:Integer",
    "float" := "basic:Float",
    "char*" := "basic:String",
    "char *" := "basic:String",
    "string" := "basic:String",
    "char" := "basic:String",
    "const char*" := "basic:String",
    "const char *" := "basic:String",
    "[float" := "basic:Float",
    "float]" := "basic:Float",
    "[int" := "basic:Integer",
    "int]" := "basic:Integer",
    "bool" := "basic:Boolean",
    "unicode" := "basic:String"
  ]

  const DisallowedClasses: set<string> := {
    "simplewrapper", "vtkCriticalSection", "vtkDataArraySelection", "vtkDebugLeaks",
    "vtkDirectory", "vtkDynamicLoader", "vtkFunctionParser", "vtkGarbageCollector",
    "vtkHeap", "vtkInformationKey", "vtkInstantiator", "vtkLogLookupTable", "vtkMath",
    "vtkModelMetadata", "vtkMultiProcessController", "vtkMutexLock", "vtkOutputWindow",
    "vtkPriorityQueue", "vtkQtInitialization", "vtkReferenceCount",
    "vtkRenderWindowCollection", "vtkRenderWindowInteractor", "vtkTesting", "vtkWindow",
    "vtkContext2D", "vtkPLYWriter", "vtkBooleanTexture", "vtkImageMaskBits",
    "vtkHardwareSelector", "vtkAbstractContextBufferId", "vtkAbstractElectronicData",
    "vtkCallbackCommand", "vtkImageComplex", "vtkInformationDataObjectKey",
    "vtkInformationDoubleKey", "vtkInformationDoubleVectorKey", "vtkInformationIdTypeKey",
    "vtkInformationInformationKey", "vtkInformationInformationVectorKey",
    "vtkInformationIntegerKey", "vtkInformationIntegerPointerKey",
    "vtkInformationIntegerVectorKey", "vtkInformationKeyVectorKey",
    "vtkInformationObjectBaseKey", "vtkInformationRequestKey", "vtkInformationStringKey",
    "vtkInformationStringVectorKey", "vtkInformationUnsignedLongKey", "vtkRenderWindow",
    "vtkShaderProgram2", "vtkShadowMapBakerPassLightCameras",
    "vtkShadowMapBakerPassTextures", "vtkTDxMotionEventInfo",
    "vtkVolumeRayCastDynamicInfo", "vtkVolumeRayCastStaticInfo"
  }

  // ---------------------------------------------------------------------------
  // resolve_overloaded_name

  /** The port name of overload `ix` (0-based): the method name itself when it
      has a single signature, otherwise the name, an underscore and `ix + 1`. */
  function ResolveOverloadedName(name: string, ix: nat, signatures: seq<Signature>): (r: string)
    ensures |signatures| == 1 ==> r == name
    ensures |signatures| != 1 ==>
      |r| > |name| + 1 && r[..|name|] == name && r[|name|] == '_' &&
      r[|name| + 1..] == Decimal.NatToString(ix + 1) &&
      Decimal.ParseInt(r[|name| + 1..]) == Some(ix + 1)
  {
    if |signatures| == 1 then name
    else
      Decimal.IntToStringRoundTrip(ix + 1);
      var r := name + "_" + Decimal.IntToString(ix + 1);
      assert r[|name| + 1..] == Decimal.IntToString(ix + 1);
      r
  }

  /** The overloads of one overloaded method get pairwise different port names. */
  lemma OverloadNamesDistinct(name: string, i: nat, j: nat, signatures: seq<Signature>)
    requires |signatures| != 1 && i != j
    ensures ResolveOverloadedName(name, i, signatures) != ResolveOverloadedName(name, j, signatures)
  {
  }

  // ---------------------------------------------------------------------------
  // get_port_types

  /** Python's `s.strip()` is empty exactly when `s` is all whitespace. */
  predicate IsBlank(s: string) {
    forall i :: 0 <= i < |s| ==> s[i] in {' ', '\t', '\n', '\r', 11 as char, 12 as char}
  }

  /** A single C type name: mapped through the type table, else returned raw,
      unless it is blank. */
  function ConvertName(s: string): PortType {
    if s in TypeMap then PortName(TypeMap[s])
    else if !IsBlank(s) then PortName(s)
    else NoPort
  }

  /** get_port_types: lists and tuples convert element-wise into lists. */
  function GetPortTypes(t: PyVal): (r: PortType)
    ensures (t.List? || t.Tuple?) <==> r.PortList?
    ensures r.PortList? ==> |r.items| == |t.items|
    decreases t, 1
  {
    match t
    case List(xs) => PortList(GetPortTypesSeq(xs))
    case Tuple(xs) => PortList(GetPortTypesSeq(xs))
    case NoneV => NoPort
    case Str(s) => ConvertName(s)
  }

  function GetPortTypesSeq(xs: seq<PyVal>): (r: seq<PortType>)
    ensures |r| == |xs|
    decreases xs, 0
  {
    if xs == [] then [] else [GetPortTypes(xs[0])] + GetPortTypesSeq(xs[1..])
  }

  /** The names and Nones of a value, left to right, lists and tuples opened. */
  function Leaves(t: PyVal): seq<PyVal>
    decreases t, 1
  {
    match t
    case List(xs) => LeavesSeq(xs)
    case Tuple(xs) => LeavesSeq(xs)
    case _ => [t]
  }

  function LeavesSeq(xs: seq<PyVal>): seq<PyVal>
    decreases xs, 0
  {
    if xs == [] then [] else Leaves(xs[0]) + LeavesSeq(xs[1..])
  }

  function PortLeaves(p: PortType): seq<PortType>
    decreases p, 1
  {
    match p
    case PortList(ps) => PortLeavesSeq(ps)
    case _ => [p]
  }

  function PortLeavesSeq(ps: seq<PortType>): seq<PortType>
    decreases ps, 0
  {
    if ps == [] then [] else PortLeaves(ps[0]) + PortLeavesSeq(ps[1..])
  }

  /** How get_port_types treats one leaf. */
  function ConvertLeaf(l: PyVal): PortType {
    match l
    case Str(s) => ConvertName(s)
    case _ => NoPort
  }

  function ConvertLeaves(ls: seq<PyVal>): (r: seq<PortType>)
    ensures |r| == |ls|
  {
    if ls == [] then [] else [ConvertLeaf(ls[0])] + ConvertLeaves(ls[1..])
  }

  lemma {:induction false} ConvertLeavesAppend(a: seq<PyVal>, b: seq<PyVal>)
    ensures ConvertLeaves(a + b) == ConvertLeaves(a) + ConvertLeaves(b)
  {
    if a == [] {
      assert a + b == b;
    } else {
      assert (a + b)[0] == a[0] && (a + b)[1..] == a[1..] + b;
      ConvertLeavesAppend(a[1..], b);
    }
  }

  /** get_port_types keeps the nesting and converts every leaf on its own: the
      leaves of the result are the converted leaves of the input, in order. */
  lemma {:induction false} PortTypesFollowLeaves(t: PyVal)
    ensures PortLeaves(GetPortTypes(t)) == ConvertLeaves(Leaves(t))
    decreases t, 1
  {
    match t
    case List(xs) => PortTypesSeqFollowLeaves(xs);
    case Tuple(xs) => PortTypesSeqFollowLeaves(xs);
    case NoneV =>
    case Str(_) =>
  }

  lemma {:induction false} PortTypesSeqFollowLeaves(xs: seq<PyVal>)
    ensures PortLeavesSeq(GetPortTypesSeq(xs)) == ConvertLeaves(LeavesSeq(xs))
    decreases xs, 0
  {
    if xs != [] {
      PortTypesFollowLeaves(xs[0]);
      PortTypesSeqFollowLeaves(xs[1..]);
      ConvertLeavesAppend(Leaves(xs[0]), LeavesSeq(xs[1..]));
    }
  }

  /** get_port_types keeps the nesting: element i of a converted list or
      tuple is element i of the input, converted. */
  lemma {:induction false} PortTypesElementwise(t: PyVal)
    ensures t.List? || t.Tuple? ==>
      forall i :: 0 <= i < |t.items| ==> GetPortTypes(t).items[i] == GetPortTypes(t.items[i])
  {
    if t.List? || t.Tuple? {
      PortTypesSeqElementwise(t.items);
    }
  }

  lemma {:induction false} PortTypesSeqElementwise(xs: seq<PyVal>)
    ensures forall i :: 0 <= i < |xs| ==> GetPortTypesSeq(xs)[i] == GetPortTypes(xs[i])
  {
    if xs != [] {
      PortTypesSeqElementwise(xs[1..]);
      forall i | 1 <= i < |xs| ensures GetPortTypesSeq(xs)[i] == GetPortTypes(xs[i]) {
        assert xs[1..][i - 1] == xs[i];
      }
    }
  }

  /** Converting a converted name again changes nothing: the values of the
      type table are not keys of it and are not blank, so a port type name
      that get_port_types produced is a fixed point of the conversion. */
  lemma {:induction false} ConvertNameIdempotent(s: string)
    ensures GetPortTypes(Str(s)).PortName? ==>
      GetPortTypes(Str(GetPortTypes(Str(s)).name)) == GetPortTypes(Str(s))
    ensures forall k :: k in TypeMap ==> TypeMap[k] !in TypeMap && !IsBlank(TypeMap[k])
  {
    forall k | k in TypeMap ensures TypeMap[k] !in TypeMap && !IsBlank(TypeMap[k]) {
      assert TypeMap[k][0] == 'b';
    }
  }

  // ---------------------------------------------------------------------------
  // is_type_allowed

  /** A single port type name is allowed unless it is None, "tuple",
      "function" or a disallowed class. */
  predicate LeafAllowed(p: PortType) {
    p.PortName? && p.name != "tuple" && p.name != "function" && p.name !in DisallowedClasses
  }

  /** is_type_allowed: a list is allowed when all its elements are. */
  predicate IsTypeAllowed(p: PortType)
    decreases p
  {
    match p
    case PortList(ps) => forall i :: 0 <= i < |ps| ==> IsTypeAllowed(ps[i])
    case NoPort => false
    case PortName(n) => n != "tuple" && n != "function" && n !in DisallowedClasses
  }

  predicate AllLeavesAllowed(ls: seq<PortType>) {
    forall i :: 0 <= i < |ls| ==> LeafAllowed(ls[i])
  }

  /** A port type is allowed exactly when each of its leaves is. */
  lemma {:induction false} AllowedIffLeavesAllowed(p: PortType)
    ensures IsTypeAllowed(p) <==> AllLeavesAllowed(PortLeaves(p))
    decreases p, 1
  {
    match p
    case PortList(ps) => AllowedSeqIffLeavesAllowed(ps);
    case NoPort => assert !LeafAllowed(PortLeaves(p)[0]);
    case PortName(_) =>
      assert PortLeaves(p) == [p];
      assert AllLeavesAllowed([p]) <==> LeafAllowed([p][0]);
  }

  lemma {:induction false} AllowedSeqIffLeavesAllowed(ps: seq<PortType>)
    ensures (forall i :: 0 <= i < |ps| ==> IsTypeAllowed(ps[i])) <==> AllLeavesAllowed(PortLeavesSeq(ps))
    decreases ps, 0
  {
    if ps != [] {
      AllowedIffLeavesAllowed(ps[0]);
      AllowedSeqIffLeavesAllowed(ps[1..]);
      var a, b := PortLeaves(ps[0]), PortLeavesSeq(ps[1..]);
      assert PortLeavesSeq(ps) == a + b;
      assert AllLeavesAllowed(a + b) <==> AllLeavesAllowed(a) && AllLeavesAllowed(b) by {
        if AllLeavesAllowed(a) && AllLeavesAllowed(b) {
          forall i | 0 <= i < |a + b| ensures LeafAllowed((a + b)[i]) {
            if i >= |a| { assert (a + b)[i] == b[i - |a|]; }
          }
        }
        if AllLeavesAllowed(a + b) {
          forall i | 0 <= i < |b| ensures LeafAllowed(b[i]) {
            assert (a + b)[i + |a|] == b[i];
          }
          forall i | 0 <= i < |a| ensures LeafAllowed(a[i]) {
            assert (a + b)[i] == a[i];
          }
        }
      }
      forall i | 0 <= i < |ps| - 1 ensures ps[1..][i] == ps[i + 1] {}
      if forall i :: 0 <= i < |ps| ==> IsTypeAllowed(ps[i]) {
        assert forall i :: 0 <= i < |ps[1..]| ==> IsTypeAllowed(ps[1..][i]);
      } else {
        var i :| 0 <= i < |ps| && !IsTypeAllowed(ps[i]);
        if i > 0 { assert ps[1..][i - 1] == ps[i]; }
      }
    }
  }

  /** The port types of a C signature are allowed exactly when every C type
      name in it, converted on its own, is an allowed port type. */
  lemma PortTypesAllowedIffLeaves(t: PyVal)
    ensures IsTypeAllowed(GetPortTypes(t)) <==> AllLeavesAllowed(ConvertLeaves(Leaves(t)))
  {
    PortTypesFollowLeaves(t);
    AllowedIffLeavesAllowed(GetPortTypes(t));
  }

  // ---------------------------------------------------------------------------
  // prune_signatures

  /** Python's len() of a signature's parameter part. */
  function ParamCount(p: PyVal): nat {
    match p
    case List(xs) => |xs|
    case Tuple(xs) => |xs|
    case Str(s) => |s|
    case NoneV => 0
  }

  // ---------------------------------------------------------------------------
  // flatten: the flattened form of a parameter part, and what it does in place

  /** The Python exceptions flatten raises on a parameter part it cannot
      flatten. */
  datatype PyError = IndexError | TypeError

  function Reverse<T>(xs: seq<T>): seq<T> {
    seq(|xs|, i requires 0 <= i < |xs| => xs[|xs| - 1 - i])
  }

  /** A list nested in a list entry, as convert leaves it: reversed in
      place, then '[' put before its first element and ']' after its last.
      An empty list has no first element (IndexError); an end that is not a
      string cannot be concatenated with a bracket (TypeError). */
  function Bracketed(ys: seq<PyVal>): Result<seq<PyVal>, PyError> {
    var rev := Reverse(ys);
    if rev == [] then Failure(IndexError)
    else if !rev[0].Str? then Failure(TypeError)
    else
      var aux := rev[0 := Str("[" + rev[0].s)];
      var n := |aux| - 1;
      if !aux[n].Str? then Failure(TypeError)
      else Success(aux[n := Str(aux[n].s + "]")])
  }

  /** The variables of convert's loop over a list entry: `result`, the
      entry's elements as the loop leaves them, `first` and `lastList`. */
  datatype ConvertState = ConvertState(result: seq<PyVal>, elements: seq<PyVal>,
                                       first: bool, lastList: bool)

  /** One turn of convert's loop. A nested list after an element that is not
      a list reads `result[len(result)]`, one past the end (IndexError). The
      first element that is not a list gets '[' in front of it, in `result`
      only. */
  function ConvertStep(st: ConvertState, e: PyVal): Result<ConvertState, PyError> {
    if e.List? then
      if !st.lastList then Failure(IndexError)
      else
        match Bracketed(e.items)
        case Failure(err) => Failure(err)
        case Success(aux) =>
          Success(ConvertState(st.result + aux, st.elements + [List(aux)], st.first, true))
    else if st.first && !e.Str? then Failure(TypeError)
    else
      var item := if st.first then Str("[" + e.s) else e;
      Success(ConvertState(st.result + [item], st.elements + [e], false, false))
  }

  function ConvertLoop(xs: seq<PyVal>): Result<ConvertState, PyError> {
    if xs == [] then Success(ConvertState([], [], true, true))
    else
      match ConvertLoop(xs[..|xs| - 1])
      case Failure(err) => Failure(err)
      case Success(st) => ConvertStep(st, xs[|xs| - 1])
  }

  /** convert: the items one entry contributes, and the entry as convert
      leaves it. */
  function ConvertEntry(entry: PyVal): Result<(seq<PyVal>, PyVal), PyError> {
    match entry
    case Tuple(xs) => Success((xs, entry))
    case Str(_) => Success(([entry], entry))
    case NoneV => Failure(TypeError)
    case List(xs) =>
      match ConvertLoop(xs)
      case Failure(err) => Failure(err)
      case Success(st) => Success((st.result, List(st.elements)))
  }

  /** What `for entry in type_` iterates: the elements of a list or tuple,
      the one-character strings of a string. */
  function Entries(p: PyVal): seq<PyVal> {
    match p
    case List(xs) => xs
    case Tuple(xs) => xs
    case Str(s) => seq(|s|, i requires 0 <= i < |s| => Str([s[i]]))
    case NoneV => []
  }

  /** A parameter part with its entries replaced. */
  function Rebuilt(p: PyVal, entries: seq<PyVal>): PyVal {
    match p
    case List(_) => List(entries)
    case Tuple(_) => Tuple(entries)
    case _ => p
  }

  /** flatten's loop: the items so far, and the entries as convert left them. */
  function FlattenLoop(xs: seq<PyVal>): Result<(seq<PyVal>, seq<PyVal>), PyError> {
    if xs == [] then Success(([], []))
    else
      match FlattenLoop(xs[..|xs| - 1])
      case Failure(err) => Failure(err)
      case Success(acc) =>
        match ConvertEntry(xs[|xs| - 1])
        case Failure(err) => Failure(err)
        case Success(c) => Success((acc.0 + c.0, acc.1 + [c.1]))
  }

  /** flatten: the flattened parameter list, and the parameter part as
      flatten leaves it. */
  function Flatten(p: PyVal): Result<(seq<PyVal>, PyVal), PyError> {
    if p.NoneV? then Success(([], p))
    else
      match FlattenLoop(Entries(p))
      case Failure(err) => Failure(err)
      case Success(f) => Success((f.0, Rebuilt(p, f.1)))
  }

  method Convert(entry: PyVal) returns (r: Result<(seq<PyVal>, PyVal), PyError>)
    ensures r == ConvertEntry(entry)
  {
    match entry
    case Tuple(_) => r := Success((entry.items, entry));
    case Str(_) => r := Success(([entry], entry));
    case NoneV => r := Failure(TypeError);
    case List(xs) =>
      var result: seq<PyVal> := [];
      var elements: seq<PyVal> := [];
      var first, lastList := true, true;
      for i := 0 to |xs|
        invariant ConvertLoop(xs[..i]) == Success(ConvertState(result, elements, first, lastList))
      {
        assert xs[..i + 1][..i] == xs[..i];
        var e := xs[i];
        if e.List? {
          if !lastList {
            ConvertLoopStops(xs, i + 1);
            return Failure(IndexError);
          }
          var aux := Bracketed(e.items);
          if aux.Failure? {
            ConvertLoopStops(xs, i + 1);
            return Failure(aux.error);
          }
          result := result + aux.value;
          elements := elements + [List(aux.value)];
          lastList := true;
        } else {
          var item := e;
          if first {
            if !e.Str? {
              ConvertLoopStops(xs, i + 1);
              return Failure(TypeError);
            }
            item := Str("[" + e.s);
          }
          result := result + [item];
          elements := elements + [e];
          lastList := false;
          first := false;
        }
      }
      assert xs[..|xs|] == xs;
      r := Success((result, List(elements)));
  }

  method FlattenParams(p: PyVal) returns (r: Result<(seq<PyVal>, PyVal), PyError>)
    ensures r == Flatten(p)
  {
    if p.NoneV? {
      return Success(([], p));
    }
    var entries := Entries(p);
    var result: seq<PyVal> := [];
    var converted: seq<PyVal> := [];
    for i := 0 to |entries|
      invariant FlattenLoop(entries[..i]) == Success((result, converted))
    {
      assert entries[..i + 1][..i] == entries[..i];
      var c := Convert(entries[i]);
      if c.Failure? {
        FlattenLoopStops(entries, i + 1);
        return Failure(c.error);
      }
      result := result + c.value.0;
      converted := converted + [c.value.1];
    }
    assert entries[..|entries|] == entries;
    r := Success((result, Rebuilt(p, converted)));
  }

  lemma {:induction false} ConvertLoopStops(xs: seq<PyVal>, k: nat)
    requires k <= |xs| && ConvertLoop(xs[..k]).Failure?
    ensures ConvertLoop(xs) == ConvertLoop(xs[..k])
    decreases |xs|
  {
    if k < |xs| {
      var n := |xs| - 1;
      assert xs[..n][..k] == xs[..k];
      ConvertLoopStops(xs[..n], k);
    } else {
      assert xs[..k] == xs;
    }
  }

  lemma {:induction false} FlattenLoopStops(xs: seq<PyVal>, k: nat)
    requires k <= |xs| && FlattenLoop(xs[..k]).Failure?
    ensures FlattenLoop(xs) == FlattenLoop(xs[..k])
    decreases |xs|
  {
    if k < |xs| {
      var n := |xs| - 1;
      assert xs[..n][..k] == xs[..k];
      FlattenLoopStops(xs[..n], k);
    } else {
      assert xs[..k] == xs;
    }
  }

  /** When convert accepts a nested list: it has a first and a last element,
      and both are strings. */
  predicate NestedOk(ys: seq<PyVal>) {
    ys != [] && ys[0].Str? && ys[|ys| - 1].Str?
  }

  predicate AllLists(xs: seq<PyVal>) {
    forall i :: 0 <= i < |xs| ==> xs[i].List?
  }

  /** When convert accepts the elements of a list entry: the nested lists
      come before every other element, each is accepted, and the first other
      element, if any, is a string. */
  predicate ElementsOk(xs: seq<PyVal>) {
    (forall i, j :: 0 <= j < i < |xs| && xs[i].List? ==> xs[j].List?)
    && (forall i :: 0 <= i < |xs| && xs[i].List? ==> NestedOk(xs[i].items))
    && (forall i :: 0 <= i < |xs| && !xs[i].List? && AllLists(xs[..i]) ==> xs[i].Str?)
  }

  predicate EntryOk(e: PyVal) {
    match e
    case NoneV => false
    case List(xs) => ElementsOk(xs)
    case _ => true
  }

  /** When flatten returns instead of raising. */
  predicate FlattenOk(p: PyVal) {
    forall i :: 0 <= i < |Entries(p)| ==> EntryOk(Entries(p)[i])
  }

  /** An entry with each list nested in it reversed. */
  function EntryNestedReversed(e: PyVal): PyVal {
    match e
    case List(xs) =>
      List(seq(|xs|, i requires 0 <= i < |xs| =>
        if xs[i].List? then List(Reverse(xs[i].items)) else xs[i]))
    case _ => e
  }

  /** A parameter part with every list nested inside a list entry reversed:
      what flatten does to it, brackets aside. */
  function NestedReversed(p: PyVal): PyVal {
    Rebuilt(p, seq(|Entries(p)|, i requires 0 <= i < |Entries(p)| =>
      EntryNestedReversed(Entries(p)[i])))
  }

  lemma FlatSeqCons(xs: seq<PyVal>)
    requires xs != []
    ensures FlatSeq(xs) == Flat(xs[0]) + FlatSeq(xs[1..])
  {
    StripLeavesAppend(Leaves(xs[0]), LeavesSeq(xs[1..]));
  }

  lemma FlatSeqAppend(a: seq<PyVal>, b: seq<PyVal>)
    ensures FlatSeq(a + b) == FlatSeq(a) + FlatSeq(b)
  {
    LeavesSeqAppend(a, b);
    StripLeavesAppend(LeavesSeq(a), LeavesSeq(b));
  }

  /** Sequences whose elements have pairwise the same leaves have the same
      leaves. */
  lemma {:induction false} FlatSeqPointwise(xs: seq<PyVal>, ys: seq<PyVal>)
    requires |xs| == |ys|
    requires forall i :: 0 <= i < |xs| ==> Flat(xs[i]) == Flat(ys[i])
    ensures FlatSeq(xs) == FlatSeq(ys)
  {
    if xs != [] {
      FlatSeqCons(xs);
      FlatSeqCons(ys);
      assert Flat(xs[0]) == Flat(ys[0]);
      FlatSeqPointwise(xs[1..], ys[1..]);
    }
  }

  lemma {:induction false} StripBracketsOpen(s: string)
    ensures StripBrackets("[" + s) == StripBrackets(s)
    decreases |s|
  {
    if s == [] {
      assert ("[" + s)[..0] == [];
    } else {
      var n := |s| - 1;
      assert ("[" + s)[..n + 1] == "[" + s[..n];
      assert s == s[..n] + [s[n]];
      StripBracketsOpen(s[..n]);
    }
  }

  lemma StripBracketsClose(s: string)
    ensures StripBrackets(s + "]") == StripBrackets(s)
  {
    assert (s + "]")[..|s|] == s;
  }

  /** convert accepts a nested list exactly when it is non-empty with
      strings at both ends; the brackets it writes do not change the leaves
      removeBracts reads, which are those of the reversed list. */
  lemma BracketedFacts(ys: seq<PyVal>)
    ensures Bracketed(ys).Success? <==> NestedOk(ys)
    ensures Bracketed(ys).Success? ==>
      |Bracketed(ys).value| == |ys| && FlatSeq(Bracketed(ys).value) == FlatSeq(Reverse(ys))
  {
    if NestedOk(ys) {
      var rev := Reverse(ys);
      var aux := rev[0 := Str("[" + rev[0].s)];
      var n := |aux| - 1;
      var r := aux[n := Str(aux[n].s + "]")];
      assert Bracketed(ys) == Success(r);
      StripBracketsOpen(rev[0].s);
      StripBracketsClose(aux[n].s);
      forall i | 0 <= i < |r| ensures Flat(r[i]) == Flat(rev[i]) {
        if i == n || i == 0 {
          assert Flat(r[i]) == [Some(StripBrackets(r[i].s))];
          assert Flat(rev[i]) == [Some(StripBrackets(rev[i].s))];
        }
      }
      FlatSeqPointwise(r, rev);
    }
  }

  lemma {:induction false} ElementsOkSnoc(xs: seq<PyVal>)
    requires xs != []
    ensures var n := |xs| - 1;
      ElementsOk(xs) <==>
        (ElementsOk(xs[..n]) &&
         (xs[n].List? ==> AllLists(xs[..n]) && NestedOk(xs[n].items)) &&
         (!xs[n].List? && AllLists(xs[..n]) ==> xs[n].Str?))
  {
    var n := |xs| - 1;
    assert forall i :: 0 <= i <= n ==> xs[..n][..i] == xs[..i];
    assert forall i :: 0 <= i < n ==> xs[..n][i] == xs[i];
  }

  /** convert's loop returns exactly when the elements are accepted; its
      flags then say whether every element was a list. */
  lemma {:induction false} ConvertLoopOk(xs: seq<PyVal>)
    ensures ConvertLoop(xs).Success? <==> ElementsOk(xs)
    ensures ConvertLoop(xs).Success? ==>
      ConvertLoop(xs).value.first == AllLists(xs) && ConvertLoop(xs).value.lastList == AllLists(xs)
  {
    if xs != [] {
      var n := |xs| - 1;
      ConvertLoopOk(xs[..n]);
      ElementsOkSnoc(xs);
      if xs[n].List? {
        BracketedFacts(xs[n].items);
      }
      assert AllLists(xs) <==> AllLists(xs[..n]) && xs[n].List?;
    }
  }

  /** One turn of convert's loop appends the element, bracketed if it is a
      nested list. */
  lemma ConvertStepElements(st: ConvertState, e: PyVal)
    requires ConvertStep(st, e).Success?
    ensures ConvertStep(st, e).value.elements ==
      st.elements + [if e.List? then List(Bracketed(e.items).value) else e]
  {
  }

  /** One turn of convert's loop appends items with the leaves of the
      element it appends. */
  lemma ConvertStepLeaves(st: ConvertState, e: PyVal)
    requires ConvertStep(st, e).Success?
    requires FlatSeq(st.result) == FlatSeq(st.elements)
    ensures FlatSeq(ConvertStep(st, e).value.result) == FlatSeq(ConvertStep(st, e).value.elements)
  {
    var st' := ConvertStep(st, e).value;
    var last := st'.elements[|st'.elements| - 1];
    assert st'.elements == st.elements + [last];
    FlatSeqSingle(last);
    FlatSeqAppend(st.elements, [last]);
    if e.List? {
      var aux := Bracketed(e.items).value;
      assert st'.result == st.result + aux;
      FlatSeqAppend(st.result, aux);
    } else {
      var item := st'.result[|st'.result| - 1];
      assert st'.result == st.result + [item];
      FlatSeqSingle(item);
      FlatSeqAppend(st.result, [item]);
      if st.first {
        StripBracketsOpen(e.s);
      }
    }
  }

  /** What convert's loop leaves: each nested list bracketed, every other
      element as it was. */
  lemma {:induction false} ConvertLoopElements(xs: seq<PyVal>)
    requires ConvertLoop(xs).Success?
    ensures var st := ConvertLoop(xs).value;
      |st.elements| == |xs| &&
      (forall i :: 0 <= i < |xs| && xs[i].List? ==>
         Bracketed(xs[i].items).Success? && st.elements[i] == List(Bracketed(xs[i].items).value)) &&
      (forall i :: 0 <= i < |xs| && !xs[i].List? ==> st.elements[i] == xs[i])
  {
    if xs != [] {
      var n := |xs| - 1;
      ConvertLoopElements(xs[..n]);
      ConvertStepElements(ConvertLoop(xs[..n]).value, xs[n]);
      assert forall i :: 0 <= i < n ==> xs[..n][i] == xs[i];
    }
  }

  /** convert's loop returns items with the leaves of the elements it
      leaves. */
  lemma {:induction false} ConvertLoopLeaves(xs: seq<PyVal>)
    requires ConvertLoop(xs).Success?
    ensures FlatSeq(ConvertLoop(xs).value.result) == FlatSeq(ConvertLoop(xs).value.elements)
  {
    if xs != [] {
      var n := |xs| - 1;
      ConvertLoopLeaves(xs[..n]);
      ConvertStepLeaves(ConvertLoop(xs[..n]).value, xs[n]);
    }
  }

  /** convert returns exactly for the entries it accepts; the items it
      returns have the leaves of the entry it leaves behind, and that entry
      has the leaves of the entry with its nested lists reversed. */
  lemma ConvertEntryFacts(e: PyVal)
    ensures ConvertEntry(e).Success? <==> EntryOk(e)
    ensures ConvertEntry(e).Success? ==>
      FlatSeq(ConvertEntry(e).value.0) == Flat(ConvertEntry(e).value.1) &&
      Flat(ConvertEntry(e).value.1) == Flat(EntryNestedReversed(e))
  {
    match e
    case Str(_) =>
      FlatSeqCons([e]);
    case List(xs) =>
      ConvertLoopOk(xs);
      if ConvertLoop(xs).Success? {
        ConvertLoopElements(xs);
        ConvertLoopLeaves(xs);
        var els := ConvertLoop(xs).value.elements;
        var rs := EntryNestedReversed(e).items;
        forall i | 0 <= i < |xs| ensures Flat(els[i]) == Flat(rs[i]) {
          if xs[i].List? {
            BracketedFacts(xs[i].items);
          }
        }
        FlatSeqPointwise(els, rs);
      }
    case _ =>
  }

  /** flatten's loop returns exactly when every entry is accepted; its items
      have the leaves of the entries it leaves, entry by entry those of the
      entries with their nested lists reversed. */
  lemma {:induction false} FlattenLoopFacts(xs: seq<PyVal>)
    ensures FlattenLoop(xs).Success? <==> forall i :: 0 <= i < |xs| ==> EntryOk(xs[i])
    ensures FlattenLoop(xs).Success? ==>
      var f := FlattenLoop(xs).value;
      |f.1| == |xs| && FlatSeq(f.0) == FlatSeq(f.1) &&
      forall i :: 0 <= i < |xs| ==> Flat(f.1[i]) == Flat(EntryNestedReversed(xs[i]))
  {
    if xs != [] {
      var n := |xs| - 1;
      FlattenLoopFacts(xs[..n]);
      ConvertEntryFacts(xs[n]);
      assert forall i :: 0 <= i < n ==> xs[..n][i] == xs[i];
      if FlattenLoop(xs).Success? {
        var acc := FlattenLoop(xs[..n]).value;
        var c := ConvertEntry(xs[n]).value;
        FlatSeqAppend(acc.0, c.0);
        FlatSeqAppend(acc.1, [c.1]);
        FlatSeqCons([c.1]);
      }
    }
  }

  /** flatten returns exactly when every entry is accepted. The parameter
      part it leaves has the same kind and length, and the leaves of the
      part with every list nested in a list entry reversed; for a list or
      tuple, the flattened list has those leaves too. */
  lemma FlattenFacts(p: PyVal)
    ensures Flatten(p).Success? <==> FlattenOk(p)
    ensures Flatten(p).Success? ==>
      var q := Flatten(p).value.1;
      ParamCount(q) == ParamCount(p) && (q.List? <==> p.List?) && (q.Tuple? <==> p.Tuple?) &&
      (q.NoneV? <==> p.NoneV?) && Flat(q) == Flat(NestedReversed(p)) &&
      ((p.List? || p.Tuple?) ==> FlatSeq(Flatten(p).value.0) == Flat(q))
  {
    FlattenLoopFacts(Entries(p));
    if (p.List? || p.Tuple?) && Flatten(p).Success? {
      var f := FlattenLoop(Entries(p)).value;
      var rs := NestedReversed(p).items;
      FlatSeqPointwise(f.1, rs);
    }
  }

  // ---------------------------------------------------------------------------
  // prune_signatures: hit counts, the filter and the duplicate removal

  /** The generator's `forbidden` test, which inspects the VTK class. */
  type ForbiddenTest = (seq<PyVal>, nat, Signature) -> bool

  /** flattened_entries, computed for every signature before any is pruned:
      the flattened lists, and the signatures as flatten leaves them. The
      first signature flatten raises on ends the pruning. */
  function FlattenAll(sigs: seq<Signature>): (r: Result<(seq<seq<PyVal>>, seq<Signature>), PyError>)
    ensures r.Success? ==> |r.value.0| == |r.value.1| == |sigs|
  {
    if sigs == [] then Success(([], []))
    else
      var n := |sigs| - 1;
      match FlattenAll(sigs[..n])
      case Failure(err) => Failure(err)
      case Success(acc) =>
        match Flatten(sigs[n].params)
        case Failure(err) => Failure(err)
        case Success(f) => Success((acc.0 + [f.0], acc.1 + [Signature(sigs[n].ret, f.1)]))
  }

  lemma {:induction false} FlattenAllStops(sigs: seq<Signature>, k: nat)
    requires k <= |sigs| && FlattenAll(sigs[..k]).Failure?
    ensures FlattenAll(sigs) == FlattenAll(sigs[..k])
    decreases |sigs|
  {
    if k < |sigs| {
      var n := |sigs| - 1;
      assert sigs[..n][..k] == sigs[..k];
      FlattenAllStops(sigs[..n], k);
    } else {
      assert sigs[..k] == sigs;
    }
  }

  /** flattened_entries succeeds exactly when flatten accepts every
      parameter part, and then holds, signature by signature, flatten's
      results. */
  lemma {:induction false} FlattenAllFacts(sigs: seq<Signature>)
    ensures FlattenAll(sigs).Success? <==> forall i :: 0 <= i < |sigs| ==> FlattenOk(sigs[i].params)
    ensures FlattenAll(sigs).Success? ==> forall i :: 0 <= i < |sigs| ==>
      Flatten(sigs[i].params).Success? &&
      FlattenAll(sigs).value.0[i] == Flatten(sigs[i].params).value.0 &&
      FlattenAll(sigs).value.1[i] == Signature(sigs[i].ret, Flatten(sigs[i].params).value.1)
  {
    if sigs != [] {
      var n := |sigs| - 1;
      FlattenAllFacts(sigs[..n]);
      FlattenFacts(sigs[n].params);
      assert forall i :: 0 <= i < n ==> sigs[..n][i] == sigs[i];
    }
  }

  /** hit_count: counts every flattened entry, whatever `entry` is. */
  method HitCount(flattened: seq<seq<PyVal>>, entry: seq<PyVal>) returns (result: nat)
    ensures result == |flattened|
  {
    result := 0;
    for i := 0 to |flattened|
      invariant result == i
    {
      if flattened[i] in flattened {
        result := result + 1;
      }
    }
  }

  /** passes: whether one signature survives the first pruning phase. */
  predicate Passes(forbidden: ForbiddenTest, flattened: seq<PyVal>, hitCount: nat,
                   original: Signature, output: bool)
  {
    if forbidden(flattened, hitCount, original) then false
    else if hitCount == 1 then true
    else if original.params.NoneV? then true
    else if output && ParamCount(original.params) > 0 then false
    else hitCount > 1 && ParamCount(original.params) == |flattened|
  }

  /** The list comprehension that keeps the signatures that pass. */
  function Survivors(flats: seq<seq<PyVal>>, hits: seq<nat>, sigs: seq<Signature>,
                     forbidden: ForbiddenTest, output: bool): seq<Signature>
    requires |flats| == |hits| == |sigs|
  {
    if sigs == [] then []
    else
      var n := |sigs| - 1;
      Survivors(flats[..n], hits[..n], sigs[..n], forbidden, output) +
      (if Passes(forbidden, flats[n], hits[n], sigs[n], output) then [sigs[n]] else [])
  }

  /** `r` is `xs` with some elements left out, the rest in their order. */
  predicate IsSubsequence<T(==)>(r: seq<T>, xs: seq<T>) {
    if r == [] then true
    else if xs == [] then false
    else (r[|r| - 1] == xs[|xs| - 1] && IsSubsequence(r[..|r| - 1], xs[..|xs| - 1]))
         || IsSubsequence(r, xs[..|xs| - 1])
  }

  lemma {:induction false} SubsequenceTransitive<T>(a: seq<T>, b: seq<T>, c: seq<T>)
    requires IsSubsequence(a, b) && IsSubsequence(b, c)
    ensures IsSubsequence(a, c)
    decreases |c|
  {
    if a != [] {
      var c' := c[..|c| - 1];
      if IsSubsequence(b, c') {
        SubsequenceTransitive(a, b, c');
      } else {
        var a', b' := a[..|a| - 1], b[..|b| - 1];
        if a[|a| - 1] == b[|b| - 1] && IsSubsequence(a', b') {
          SubsequenceTransitive(a', b', c');
        } else {
          SubsequenceTransitive(a, b', c');
        }
      }
    }
  }

  lemma SubsequenceSnoc<T>(r: seq<T>, xs: seq<T>, x: T)
    requires IsSubsequence(r, xs)
    ensures IsSubsequence(r, xs + [x]) && IsSubsequence(r + [x], xs + [x])
  {
    assert (xs + [x])[..|xs|] == xs;
    assert (r + [x])[..|r|] == r;
  }

  lemma {:induction false} SubsequenceMembers<T>(r: seq<T>, xs: seq<T>)
    requires IsSubsequence(r, xs)
    ensures forall x :: x in r ==> x in xs
    decreases |xs|
  {
    if r != [] {
      var xs' := xs[..|xs| - 1];
      if IsSubsequence(r, xs') {
        SubsequenceMembers(r, xs');
      } else {
        SubsequenceMembers(r[..|r| - 1], xs');
        assert r == r[..|r| - 1] + [xs[|xs| - 1]];
        assert xs == xs' + [xs[|xs| - 1]];
      }
    }
  }

  lemma {:induction false} SurvivorsSubsequence(flats: seq<seq<PyVal>>, hits: seq<nat>,
      sigs: seq<Signature>, forbidden: ForbiddenTest, output: bool)
    requires |flats| == |hits| == |sigs|
    ensures IsSubsequence(Survivors(flats, hits, sigs, forbidden, output), sigs)
  {
    if sigs != [] {
      var n := |sigs| - 1;
      var prev := Survivors(flats[..n], hits[..n], sigs[..n], forbidden, output);
      SurvivorsSubsequence(flats[..n], hits[..n], sigs[..n], forbidden, output);
      var r := Survivors(flats, hits, sigs, forbidden, output);
      if Passes(forbidden, flats[n], hits[n], sigs[n], output) {
        assert r[..|r| - 1] == prev;
      } else {
        assert r == prev;
      }
    }
  }

  /** A signature survives exactly when it is the signature at some index
      whose flattened form and hit count let it pass. */
  lemma {:induction false} SurvivorsMembership(flats: seq<seq<PyVal>>, hits: seq<nat>,
      sigs: seq<Signature>, forbidden: ForbiddenTest, output: bool, s: Signature)
    requires |flats| == |hits| == |sigs|
    ensures s in Survivors(flats, hits, sigs, forbidden, output) <==>
            exists i :: 0 <= i < |sigs| && sigs[i] == s && Passes(forbidden, flats[i], hits[i], s, output)
  {
    if sigs != [] {
      var n := |sigs| - 1;
      SurvivorsMembership(flats[..n], hits[..n], sigs[..n], forbidden, output, s);
      if s in Survivors(flats[..n], hits[..n], sigs[..n], forbidden, output) {
        var i :| 0 <= i < n && sigs[..n][i] == s && Passes(forbidden, flats[..n][i], hits[..n][i], s, output);
        assert sigs[i] == s && Passes(forbidden, flats[i], hits[i], s, output);
      }
      if exists i :: 0 <= i < |sigs| && sigs[i] == s && Passes(forbidden, flats[i], hits[i], s, output) {
        var i :| 0 <= i < |sigs| && sigs[i] == s && Passes(forbidden, flats[i], hits[i], s, output);
        if i < n {
          assert sigs[..n][i] == s && Passes(forbidden, flats[..n][i], hits[..n][i], s, output);
        }
      }
    }
  }

  /** `r` is `s` with its brackets taken out: no brackets, the other
      characters in order and as many times. */
  predicate StripsTo(r: string, s: string) {
    (forall i :: 0 <= i < |r| ==> r[i] != '[' && r[i] != ']') &&
    IsSubsequence(r, s) &&
    (forall c :: c != '[' && c != ']' ==> multiset(r)[c] == multiset(s)[c]) &&
    ((forall i :: 0 <= i < |s| ==> s[i] != '[' && s[i] != ']') ==> r == s)
  }

  lemma StripStep(s: string, front: string)
    requires s != [] && StripsTo(front, s[..|s| - 1])
    ensures var c := s[|s| - 1];
      StripsTo(if c == '[' || c == ']' then front else front + [c], s)
  {
    var n := |s| - 1;
    assert s == s[..n] + [s[n]];
    assert multiset(s) == multiset(s[..n]) + multiset{s[n]};
    SubsequenceSnoc(front, s[..n], s[n]);
    if s[n] != '[' && s[n] != ']' {
      assert multiset(front + [s[n]]) == multiset(front) + multiset{s[n]};
      if forall i :: 0 <= i < |s| ==> s[i] != '[' && s[i] != ']' {
        assert forall i :: 0 <= i < n ==> s[..n][i] == s[i];
      }
    }
  }

  /** A string with every '[' and ']' taken out and every other character
      kept, in order. */
  function StripBrackets(s: string): (r: string)
    ensures forall i :: 0 <= i < |r| ==> r[i] != '[' && r[i] != ']'
    ensures IsSubsequence(r, s)
    ensures forall c :: c != '[' && c != ']' ==> multiset(r)[c] == multiset(s)[c]
    ensures (forall i :: 0 <= i < |s| ==> s[i] != '[' && s[i] != ']') ==> r == s
  {
    if s == [] then []
    else
      var n := |s| - 1;
      var front := StripBrackets(s[..n]);
      StripStep(s, front);
      if s[n] == '[' || s[n] == ']' then front else front + [s[n]]
  }

  /** How removeBracts lists one leaf: a string with its brackets stripped,
      None as None. */
  function StripLeaf(l: PyVal): Option<string> {
    match l
    case Str(s) => Some(StripBrackets(s))
    case _ => None
  }

  function StripLeaves(ls: seq<PyVal>): (r: seq<Option<string>>)
    ensures |r| == |ls|
  {
    seq(|ls|, i requires 0 <= i < |ls| => StripLeaf(ls[i]))
  }

  /** The leaves of a value as removeBracts lists them. */
  function Flat(t: PyVal): seq<Option<string>> {
    StripLeaves(Leaves(t))
  }

  function FlatSeq(xs: seq<PyVal>): seq<Option<string>> {
    StripLeaves(LeavesSeq(xs))
  }

  function Size(t: PyVal): nat
    decreases t, 1
  {
    match t
    case List(xs) => 1 + SizeSeq(xs)
    case Tuple(xs) => 1 + SizeSeq(xs)
    case _ => 1
  }

  function SizeSeq(xs: seq<PyVal>): nat
    decreases xs, 0
  {
    if xs == [] then 0 else Size(xs[0]) + SizeSeq(xs[1..])
  }

  lemma {:induction false} LeavesSeqAppend(a: seq<PyVal>, b: seq<PyVal>)
    ensures LeavesSeq(a + b) == LeavesSeq(a) + LeavesSeq(b)
    ensures SizeSeq(a + b) == SizeSeq(a) + SizeSeq(b)
  {
    if a == [] {
      assert a + b == b;
    } else {
      assert (a + b)[0] == a[0] && (a + b)[1..] == a[1..] + b;
      LeavesSeqAppend(a[1..], b);
    }
  }

  lemma {:induction false} StripLeavesAppend(a: seq<PyVal>, b: seq<PyVal>)
    ensures StripLeaves(a + b) == StripLeaves(a) + StripLeaves(b)
  {
    assert forall i :: 0 <= i < |a + b| ==>
      StripLeaves(a + b)[i] == (StripLeaves(a) + StripLeaves(b))[i];
  }

  /** One turn of removeBracts: a leaf on top of the stack is listed, a list
      or tuple on top is replaced by its elements. */
  lemma FlatSeqStep(xs: seq<PyVal>)
    requires xs != []
    ensures SizeSeq(xs[1..]) < SizeSeq(xs)
    ensures xs[0].Str? || xs[0].NoneV? ==> FlatSeq(xs) == [StripLeaf(xs[0])] + FlatSeq(xs[1..])
    ensures xs[0].List? || xs[0].Tuple? ==>
      FlatSeq(xs) == FlatSeq(xs[0].items + xs[1..]) && SizeSeq(xs[0].items + xs[1..]) < SizeSeq(xs)
  {
    assert LeavesSeq(xs) == Leaves(xs[0]) + LeavesSeq(xs[1..]);
    StripLeavesAppend(Leaves(xs[0]), LeavesSeq(xs[1..]));
    if xs[0].List? || xs[0].Tuple? {
      LeavesSeqAppend(xs[0].items, xs[1..]);
    }
  }

  /** `curr.reverse()` followed by `stack.insert(0, c)` for each element:
      the elements end up in front of the stack in their original order. */
  method PushFront(items: seq<PyVal>, stack: seq<PyVal>) returns (r: seq<PyVal>)
    ensures r == items + stack
  {
    var rev := seq(|items|, i requires 0 <= i < |items| => items[|items| - 1 - i]);
    r := stack;
    var k := 0;
    while k < |rev|
      invariant 0 <= k <= |rev|
      invariant r == items[|items| - k..] + stack
    {
      assert items[|items| - k - 1..] == [rev[k]] + items[|items| - k..];
      r := [rev[k]] + r;
      k := k + 1;
    }
  }

  /** removeBracts: the leaves of a signature, left to right, brackets
      stripped from the names. */
  method RemoveBracts(signature: seq<PyVal>) returns (result: seq<Option<string>>)
    ensures result == FlatSeq(signature)
  {
    result := [];
    var stack := signature;
    while |stack| != 0
      invariant result + FlatSeq(stack) == FlatSeq(signature)
      decreases SizeSeq(stack)
    {
      var curr := stack[0];
      var rest := stack[1..];
      FlatSeqStep(stack);
      match curr
      case Str(s) =>
        result := result + [Some(StripBrackets(s))];
        stack := rest;
      case NoneV =>
        result := result + [None];
        stack := rest;
      case List(xs) =>
        stack := PushFront(xs, rest);
      case Tuple(xs) =>
        stack := PushFront(xs, rest);
    }
  }

  /** The form two signatures are compared by: removeBracts of the
      (return, parameters) pair. */
  function SigKey(s: Signature): seq<Option<string>> {
    FlatSeq([s.ret, s.params])
  }

  function KeysOf(sigs: seq<Signature>): (r: seq<seq<Option<string>>>)
    ensures |r| == |sigs|
  {
    seq(|sigs|, i requires 0 <= i < |sigs| => SigKey(sigs[i]))
  }

  /** The duplicate-removal loop: a signature is kept when no kept signature
      before it has the same removeBracts form. */
  function DedupSpec(sigs: seq<Signature>): seq<Signature> {
    if sigs == [] then []
    else
      var n := |sigs| - 1;
      var d := DedupSpec(sigs[..n]);
      if SigKey(sigs[n]) in KeysOf(d) then d else d + [sigs[n]]
  }

  /** The signatures whose removeBracts form did not occur earlier in the
      input: the reference for what the duplicate removal keeps. */
  function FirstOfEachForm(sigs: seq<Signature>): seq<Signature> {
    if sigs == [] then []
    else
      var n := |sigs| - 1;
      FirstOfEachForm(sigs[..n]) + (if SigKey(sigs[n]) in KeysOf(sigs[..n]) then [] else [sigs[n]])
  }

  /** What removeBracts does to the signature it walks: every list in it, at
      every depth, is reversed in place; tuples are copied, not changed. */
  function RevAll(v: PyVal): PyVal {
    match v
    case List(xs) => List(seq(|xs|, i requires 0 <= i < |xs| => RevAll(xs[|xs| - 1 - i])))
    case Tuple(xs) => Tuple(seq(|xs|, i requires 0 <= i < |xs| => RevAll(xs[i])))
    case _ => v
  }

  function RevAllSig(s: Signature): Signature {
    Signature(RevAll(s.ret), RevAll(s.params))
  }

  function RevAllSeq(sigs: seq<Signature>): (r: seq<Signature>)
    ensures |r| == |sigs|
  {
    seq(|sigs|, i requires 0 <= i < |sigs| => RevAllSig(sigs[i]))
  }

  /** Reversing every list twice gives the value back, and one reversal
      keeps the kind and length of the value. */
  lemma {:induction false} RevAllInvolution(v: PyVal)
    ensures RevAll(RevAll(v)) == v
    ensures ParamCount(RevAll(v)) == ParamCount(v)
    ensures (RevAll(v).List? <==> v.List?) && (RevAll(v).Tuple? <==> v.Tuple?) &&
            (RevAll(v).NoneV? <==> v.NoneV?)
  {
    match v
    case List(xs) =>
      var ys := RevAll(v).items;
      forall i | 0 <= i < |xs| ensures RevAll(ys[|xs| - 1 - i]) == xs[i] {
        RevAllInvolution(xs[i]);
      }
      assert RevAll(RevAll(v)).items == xs;
    case Tuple(xs) =>
      var ys := RevAll(v).items;
      forall i | 0 <= i < |xs| ensures RevAll(ys[i]) == xs[i] {
        RevAllInvolution(xs[i]);
      }
      assert RevAll(RevAll(v)).items == xs;
    case _ =>
  }

  lemma RevAllSeqSnoc(d: seq<Signature>, s: Signature)
    ensures RevAllSeq(d + [s]) == RevAllSeq(d) + [RevAllSig(s)]
  {
  }

  /** The duplicate-removal loop. removeBracts reads a signature's form and
      reverses its lists in place, so a kept signature is kept as the walk
      leaves it. */
  method DedupSignatures(sigs: seq<Signature>) returns (unique: seq<Signature>)
    ensures unique == RevAllSeq(DedupSpec(sigs))
  {
    unique := [];
    var keys: seq<seq<Option<string>>> := [];
    for i := 0 to |sigs|
      invariant unique == RevAllSeq(DedupSpec(sigs[..i]))
      invariant keys == KeysOf(DedupSpec(sigs[..i]))
    {
      assert sigs[..i + 1][..i] == sigs[..i];
      var aux := RemoveBracts([sigs[i].ret, sigs[i].params]);
      var walked := RevAllSig(sigs[i]);
      if aux !in keys {
        RevAllSeqSnoc(DedupSpec(sigs[..i]), sigs[i]);
        unique := unique + [walked];
        keys := keys + [aux];
      }
    }
    assert sigs[..|sigs|] == sigs;
  }

  /** Every input signature's form is among the kept forms, and the kept
      forms are forms of input signatures. */
  lemma {:induction false} DedupForms(sigs: seq<Signature>)
    ensures forall i :: 0 <= i < |sigs| ==> SigKey(sigs[i]) in KeysOf(DedupSpec(sigs))
    ensures forall k :: k in KeysOf(DedupSpec(sigs)) ==> k in KeysOf(sigs)
  {
    if sigs != [] {
      var n := |sigs| - 1;
      var d := DedupSpec(sigs[..n]);
      DedupForms(sigs[..n]);
      KeysOfPrefix(sigs, n);
      KeysOfSnoc(d, sigs[n]);
      assert KeysOf(sigs)[n] == SigKey(sigs[n]);
    }
  }

  lemma KeysOfPrefix(sigs: seq<Signature>, n: nat)
    requires n <= |sigs|
    ensures forall i :: 0 <= i < n ==> KeysOf(sigs[..n])[i] == KeysOf(sigs)[i]
    ensures forall k :: k in KeysOf(sigs[..n]) ==> k in KeysOf(sigs)
  {
    forall k | k in KeysOf(sigs[..n]) ensures k in KeysOf(sigs) {
      var i :| 0 <= i < n && KeysOf(sigs[..n])[i] == k;
      assert KeysOf(sigs)[i] == k;
    }
  }

  lemma KeysOfSnoc(d: seq<Signature>, s: Signature)
    ensures KeysOf(d + [s]) == KeysOf(d) + [SigKey(s)]
  {
  }

  /** No two kept signatures have the same removeBracts form. */
  lemma {:induction false} DedupFormsDistinct(sigs: seq<Signature>)
    ensures forall i, j :: 0 <= i < j < |DedupSpec(sigs)| ==> KeysOf(DedupSpec(sigs))[i] != KeysOf(DedupSpec(sigs))[j]
  {
    if sigs != [] {
      var n := |sigs| - 1;
      var d := DedupSpec(sigs[..n]);
      DedupFormsDistinct(sigs[..n]);
      KeysOfSnoc(d, sigs[n]);
    }
  }

  /** The duplicate removal keeps exactly the first signature of each form,
      in input order. */
  lemma {:induction false} DedupKeepsFirstOfEachForm(sigs: seq<Signature>)
    ensures DedupSpec(sigs) == FirstOfEachForm(sigs)
  {
    if sigs != [] {
      var n := |sigs| - 1;
      DedupKeepsFirstOfEachForm(sigs[..n]);
      DedupForms(sigs[..n]);
      assert forall i :: 0 <= i < n ==> sigs[..n][i] == sigs[i];
      assert SigKey(sigs[n]) in KeysOf(DedupSpec(sigs[..n])) <==> SigKey(sigs[n]) in KeysOf(sigs[..n]) by {
        if SigKey(sigs[n]) in KeysOf(sigs[..n]) {
          var i :| 0 <= i < n && KeysOf(sigs[..n])[i] == SigKey(sigs[n]);
          assert SigKey(sigs[..n][i]) in KeysOf(DedupSpec(sigs[..n]));
        }
      }
    }
  }

  lemma {:induction false} DedupSubsequence(sigs: seq<Signature>)
    ensures IsSubsequence(DedupSpec(sigs), sigs)
  {
    if sigs != [] {
      var n := |sigs| - 1;
      var d := DedupSpec(sigs[..n]);
      DedupSubsequence(sigs[..n]);
      if SigKey(sigs[n]) !in KeysOf(d) {
        assert (d + [sigs[n]])[..|d|] == d;
      }
    }
  }

  /** The signatures that pass, as flatten left them, first of each form. */
  function Selected(flats: seq<seq<PyVal>>, sigs: seq<Signature>, forbidden: ForbiddenTest,
                    output: bool): seq<Signature>
    requires |flats| == |sigs|
  {
    DedupSpec(Survivors(flats, seq(|sigs|, _ => |sigs|), sigs, forbidden, output))
  }

  /** What prune_signatures leaves in the caller's list, or the exception
      flatten raises. */
  function Pruned(sigs: seq<Signature>, forbidden: ForbiddenTest, output: bool)
    : Result<seq<Signature>, PyError>
  {
    match FlattenAll(sigs)
    case Failure(err) => Failure(err)
    case Success(f) => Success(RevAllSeq(Selected(f.0, f.1, forbidden, output)))
  }

  /** prune_signatures, returning the new contents of the caller's list. */
  method PruneSignatures(sigs: seq<Signature>, forbidden: ForbiddenTest, output: bool)
    returns (result: Result<seq<Signature>, PyError>)
    ensures result == Pruned(sigs, forbidden, output)
  {
    var flattened: seq<seq<PyVal>> := [];
    var originals: seq<Signature> := [];
    for i := 0 to |sigs|
      invariant FlattenAll(sigs[..i]) == Success((flattened, originals))
    {
      assert sigs[..i + 1][..i] == sigs[..i];
      var f := FlattenParams(sigs[i].params);
      if f.Failure? {
        FlattenAllStops(sigs, i + 1);
        return Failure(f.error);
      }
      flattened := flattened + [f.value.0];
      originals := originals + [Signature(sigs[i].ret, f.value.1)];
    }
    assert sigs[..|sigs|] == sigs;
    var hits: seq<nat> := [];
    for i := 0 to |flattened|
      invariant hits == seq(i, _ => |sigs|)
    {
      var h := HitCount(flattened, flattened[i]);
      hits := hits + [h];
    }
    var kept := Survivors(flattened, hits, originals, forbidden, output);
    var unique := DedupSignatures(kept);
    result := Success(unique);
  }

  /** prune_signatures raises exactly when flatten rejects some parameter
      part. */
  lemma PrunedFails(sigs: seq<Signature>, forbidden: ForbiddenTest, output: bool)
    ensures Pruned(sigs, forbidden, output).Failure? <==>
            exists i :: 0 <= i < |sigs| && !FlattenOk(sigs[i].params)
  {
    FlattenAllFacts(sigs);
  }

  /** The selection keeps its order and its forms are pairwise different. */
  lemma SelectedOrder(flats: seq<seq<PyVal>>, sigs: seq<Signature>,
                      forbidden: ForbiddenTest, output: bool)
    requires |flats| == |sigs|
    ensures var kept := Selected(flats, sigs, forbidden, output);
            IsSubsequence(kept, sigs) &&
            (forall i, j :: 0 <= i < j < |kept| ==> KeysOf(kept)[i] != KeysOf(kept)[j])
  {
    var hits := seq(|sigs|, _ => |sigs|);
    var survivors := Survivors(flats, hits, sigs, forbidden, output);
    SurvivorsSubsequence(flats, hits, sigs, forbidden, output);
    DedupSubsequence(survivors);
    SubsequenceTransitive(DedupSpec(survivors), survivors, sigs);
    DedupFormsDistinct(survivors);
  }

  /** Every selected signature passes with hit count |sigs|, and every
      signature that passes has its form among the selected forms. */
  lemma SelectedPasses(flats: seq<seq<PyVal>>, sigs: seq<Signature>,
                       forbidden: ForbiddenTest, output: bool)
    requires |flats| == |sigs|
    ensures var kept := Selected(flats, sigs, forbidden, output);
            (forall s :: s in kept ==>
               (exists i :: 0 <= i < |sigs| && sigs[i] == s && Passes(forbidden, flats[i], |sigs|, s, output))) &&
            (forall i :: 0 <= i < |sigs| && Passes(forbidden, flats[i], |sigs|, sigs[i], output) ==>
                           SigKey(sigs[i]) in KeysOf(kept))
  {
    var hits := seq(|sigs|, _ => |sigs|);
    var survivors := Survivors(flats, hits, sigs, forbidden, output);
    var d := DedupSpec(survivors);
    DedupSubsequence(survivors);
    SubsequenceMembers(d, survivors);
    DedupForms(survivors);
    forall s | s in d
      ensures exists i :: 0 <= i < |sigs| && sigs[i] == s && Passes(forbidden, flats[i], |sigs|, s, output)
    {
      SurvivorsMembership(flats, hits, sigs, forbidden, output, s);
    }
    forall i | 0 <= i < |sigs| && Passes(forbidden, flats[i], |sigs|, sigs[i], output)
      ensures SigKey(sigs[i]) in KeysOf(d)
    {
      SurvivorsMembership(flats, hits, sigs, forbidden, output, sigs[i]);
      var k :| 0 <= k < |survivors| && survivors[k] == sigs[i];
    }
  }

  /** Undoing removeBracts's reversal of the pruned signatures gives the
      selection. */
  lemma PrunedUndone(sigs: seq<Signature>, forbidden: ForbiddenTest, output: bool)
    requires Pruned(sigs, forbidden, output).Success?
    ensures var p := Pruned(sigs, forbidden, output).value;
            var f := FlattenAll(sigs).value;
            seq(|p|, i requires 0 <= i < |p| => RevAllSig(p[i])) == Selected(f.0, f.1, forbidden, output)
  {
    var f := FlattenAll(sigs).value;
    var d := Selected(f.0, f.1, forbidden, output);
    var p := Pruned(sigs, forbidden, output).value;
    assert p == RevAllSeq(d);
    forall i | 0 <= i < |d| ensures RevAllSig(p[i]) == d[i] {
      RevAllInvolution(d[i].ret);
      RevAllInvolution(d[i].params);
    }
  }

  /** The form of a signature as flatten leaves it is that of the signature
      with the lists nested in its list entries reversed. */
  lemma FlattenedForms(sigs: seq<Signature>)
    requires FlattenAll(sigs).Success?
    ensures forall i :: 0 <= i < |sigs| ==>
              SigKey(FlattenAll(sigs).value.1[i]) == FlatSeq([sigs[i].ret, NestedReversed(sigs[i].params)])
  {
    var left := FlattenAll(sigs).value.1;
    FlattenAllFacts(sigs);
    forall i | 0 <= i < |sigs|
      ensures SigKey(left[i]) == FlatSeq([sigs[i].ret, NestedReversed(sigs[i].params)])
    {
      FlattenFacts(sigs[i].params);
      FlatSeqPointwise([left[i].ret, left[i].params], [sigs[i].ret, NestedReversed(sigs[i].params)]);
    }
  }

  /** On success, with `flat` the flattened lists and `left` the signatures
      as flatten leaves them: undoing removeBracts's reversal gives a
      subsequence of `left`, every member of which passes with hit count
      |sigs|; every signature that passes has its form among the kept forms;
      the kept forms are pairwise different; and a form is that of the
      signature with the lists nested in its list entries reversed. */
  lemma PrunedProperties(sigs: seq<Signature>, forbidden: ForbiddenTest, output: bool)
    requires Pruned(sigs, forbidden, output).Success?
    ensures var p := Pruned(sigs, forbidden, output).value;
            var f := FlattenAll(sigs).value;
            var kept := seq(|p|, i requires 0 <= i < |p| => RevAllSig(p[i]));
            IsSubsequence(kept, f.1) &&
            (forall s :: s in kept ==>
               (exists i :: 0 <= i < |sigs| && f.1[i] == s && Passes(forbidden, f.0[i], |sigs|, s, output))) &&
            (forall i :: 0 <= i < |sigs| && Passes(forbidden, f.0[i], |sigs|, f.1[i], output) ==>
                           SigKey(f.1[i]) in KeysOf(kept)) &&
            (forall i, j :: 0 <= i < j < |kept| ==> KeysOf(kept)[i] != KeysOf(kept)[j])
    ensures FlattenAll(sigs).Success? && forall i :: 0 <= i < |sigs| ==>
              SigKey(FlattenAll(sigs).value.1[i]) == FlatSeq([sigs[i].ret, NestedReversed(sigs[i].params)])
  {
    var f := FlattenAll(sigs).value;
    PrunedUndone(sigs, forbidden, output);
    SelectedOrder(f.0, f.1, forbidden, output);
    SelectedPasses(f.0, f.1, forbidden, output);
    FlattenedForms(sigs);
  }

  /** A method with a single overload keeps it, as flatten and removeBracts
      leave it, unless it is forbidden. */
  lemma PruneSingle(sig: Signature, forbidden: ForbiddenTest, output: bool)
    ensures Flatten(sig.params).Success? ==>
              var f := Flatten(sig.params).value;
              var left := Signature(sig.ret, f.1);
              Pruned([sig], forbidden, output) ==
                Success(if forbidden(f.0, 1, left) then [] else [RevAllSig(left)])
  {
    if Flatten(sig.params).Success? {
      var f := Flatten(sig.params).value;
      var left := Signature(sig.ret, f.1);
      assert [sig][..0] == [] && [sig][0] == sig;
      assert FlattenAll([sig][..0]) == Success(([], []));
      assert FlattenAll([sig]) == Success(([] + [f.0], [] + [left]));
      assert [] + [f.0] == [f.0] && [] + [left] == [left];
      var hits: seq<nat> := seq(1, _ => 1);
      assert [f.0][..0] == [] && [left][..0] == [] && hits[..0] == [] && hits[0] == 1;
      var survivors := Survivors([f.0], hits, [left], forbidden, output);
      assert Survivors([], [], [], forbidden, output) == [];
      assert survivors == [] + (if Passes(forbidden, f.0, 1, left, output) then [left] else []);
      assert KeysOf([]) == [];
      if forbidden(f.0, 1, left) {
        assert survivors == [];
      } else {
        assert survivors == [left];
        assert DedupSpec(survivors) == [left];
        assert Selected([f.0], [left], forbidden, output) == [left];
        assert RevAllSeq([left]) == [RevAllSig(left)];
      }
    }
  }

  /** With several overloads, an output (getter) overload survives only
      without parameters. */
  lemma PruneOutputs(sigs: seq<Signature>, forbidden: ForbiddenTest, output: bool)
    ensures output && |sigs| > 1 && Pruned(sigs, forbidden, output).Success? ==>
              forall s :: s in Pruned(sigs, forbidden, output).value ==>
                s.params.NoneV? || ParamCount(s.params) == 0
  {
    if output && |sigs| > 1 && Pruned(sigs, forbidden, output).Success? {
      PrunedProperties(sigs, forbidden, output);
      var p := Pruned(sigs, forbidden, output).value;
      var f := FlattenAll(sigs).value;
      var kept := seq(|p|, i requires 0 <= i < |p| => RevAllSig(p[i]));
      forall s | s in p ensures s.params.NoneV? || ParamCount(s.params) == 0 {
        var i :| 0 <= i < |p| && p[i] == s;
        var k := RevAllSig(s);
        RevAllInvolution(s.params);
        assert kept[i] == k;
        assert k in kept;
        var j :| 0 <= j < |sigs| && f.1[j] == k && Passes(forbidden, f.0[j], |sigs|, k, output);
      }
    }
  }

  /** flatten on ([[a, b]], ()): the nested list is reversed and
      bracketed. */
  lemma FlattenNestedExample(a: string, b: string)
    ensures Flatten(Tuple([List([List([Str(a), Str(b)])]), Tuple([])])) ==
      Success(([Str("[" + b), Str(a + "]")], Tuple([List([List([Str("[" + b), Str(a + "]")])]), Tuple([])])))
  {
    var nested := [Str("[" + b), Str(a + "]")];
    assert Reverse([Str(a), Str(b)]) == [Str(b), Str(a)];
    assert [Str(b), Str(a)][0 := Str("[" + b)] == [Str("[" + b), Str(a)];
    assert [Str("[" + b), Str(a)][1 := Str(a + "]")] == nested;
    assert Bracketed([Str(a), Str(b)]) == Success(nested);
    var c1 := [List([Str(a), Str(b)])];
    assert c1[..0] == [];
    var init := ConvertState([], [], true, true);
    assert [] + nested == nested && [] + [List(nested)] == [List(nested)];
    assert ConvertStep(init, c1[0]) == Success(ConvertState(nested, [List(nested)], true, true));
    assert ConvertLoop(c1) == Success(ConvertState(nested, [List(nested)], true, true));
    var e1 := [List(c1), Tuple([])];
    assert e1[..1][..0] == [] && e1[..1] == [e1[0]];
    assert ConvertEntry(e1[0]) == Success((nested, List([List(nested)])));
    assert FlattenLoop([]) == Success(([], []));
    assert [] + [List([List(nested)])] == [List([List(nested)])];
    assert FlattenLoop(e1[..1]) == Success((nested, [List([List(nested)])]));
    assert FlattenLoop(e1) == Success((nested + [], [List([List(nested)])] + [Tuple([])]));
    assert nested + [] == nested;
    assert [List([List(nested)])] + [Tuple([])] == [List([List(nested)]), Tuple([])];
  }

  /** flatten on ([b, a], ()): nothing is nested, nothing changes. */
  lemma FlattenFlatExample(a: string, b: string)
    ensures Flatten(Tuple([List([Str(b), Str(a)]), Tuple([])])) ==
      Success(([Str("[" + b), Str(a)], Tuple([List([Str(b), Str(a)]), Tuple([])])))
  {
    var init := ConvertState([], [], true, true);
    var flat2 := [Str("[" + b), Str(a)];
    var c2 := [Str(b), Str(a)];
    assert c2[..1][..0] == [] && c2[..1] == [Str(b)];
    assert [] + [Str("[" + b)] == [Str("[" + b)] && [] + [Str(b)] == [Str(b)];
    assert ConvertStep(init, Str(b)) == Success(ConvertState([Str("[" + b)], [Str(b)], false, false));
    assert ConvertLoop(c2[..1]) == Success(ConvertState([Str("[" + b)], [Str(b)], false, false));
    assert [Str("[" + b)] + [Str(a)] == flat2 && [Str(b)] + [Str(a)] == c2;
    assert ConvertStep(ConvertState([Str("[" + b)], [Str(b)], false, false), Str(a)) ==
      Success(ConvertState(flat2, c2, false, false));
    assert ConvertLoop(c2) == Success(ConvertState(flat2, c2, false, false));
    var e2 := [List(c2), Tuple([])];
    assert e2[..1][..0] == [] && e2[..1] == [e2[0]];
    assert [] + flat2 == flat2 && [] + [List(c2)] == [List(c2)];
    assert ConvertEntry(e2[0]) == Success((flat2, List(c2)));
    assert FlattenLoop(e2[..1]) == Success((flat2, [List(c2)]));
    assert FlattenLoop(e2) == Success((flat2 + [], [List(c2)] + [Tuple([])]));
    assert flat2 + [] == flat2 && [List(c2)] + [Tuple([])] == e2;
  }

  lemma FlatSeqPair(x: PyVal, y: PyVal)
    ensures FlatSeq([x, y]) == Flat(x) + Flat(y)
  {
    FlatSeqCons([x, y]);
    assert [x, y][1..] == [y];
    FlatSeqCons([y]);
    assert [y][1..] == [];
  }

  lemma FlatSeqSingle(x: PyVal)
    ensures FlatSeq([x]) == Flat(x)
  {
    FlatSeqCons([x]);
    assert [x][1..] == [];
  }

  /** The forms of the two example overloads once flattened: both
      [r, b, a]. */
  lemma ExampleForms(r: PyVal, a: string, b: string)
    ensures SigKey(Signature(r, Tuple([List([List([Str("[" + b), Str(a + "]")])]), Tuple([])]))) ==
            SigKey(Signature(r, Tuple([List([Str(b), Str(a)]), Tuple([])])))
  {
    var nested := List([Str("[" + b), Str(a + "]")]);
    var plain := List([Str(b), Str(a)]);
    StripBracketsOpen(b);
    StripBracketsClose(a);
    FlatSeqPair(Str("[" + b), Str(a + "]"));
    FlatSeqPair(Str(b), Str(a));
    assert Flat(nested) == Flat(plain);
    FlatSeqSingle(nested);
    assert Flat(List([nested])) == Flat(plain);
    FlatSeqPair(List([nested]), Tuple([]));
    FlatSeqPair(plain, Tuple([]));
    var p1 := Tuple([List([nested]), Tuple([])]);
    var p2 := Tuple([plain, Tuple([])]);
    assert Flat(p1) == Flat(p2);
    FlatSeqPair(r, p1);
    FlatSeqPair(r, p2);
  }

  /** Of two overloads with the same form that both pass, only the first is
      selected. */
  lemma SelectFirstOfTwo(flats: seq<seq<PyVal>>, l1: Signature, l2: Signature,
                         forbidden: ForbiddenTest, output: bool)
    requires |flats| == 2
    requires Passes(forbidden, flats[0], 2, l1, output) && Passes(forbidden, flats[1], 2, l2, output)
    requires SigKey(l1) == SigKey(l2)
    ensures Selected(flats, [l1, l2], forbidden, output) == [l1]
  {
    var hits: seq<nat> := seq(2, _ => 2);
    var sigs := [l1, l2];
    assert hits[..1][..0] == [] && flats[..1][..0] == [] && sigs[..1][..0] == [];
    assert hits[..1][0] == 2 && hits[1] == 2 && sigs[..1][0] == l1 && sigs[1] == l2;
    assert flats[..1][0] == flats[0];
    assert Survivors([], [], [], forbidden, output) == [];
    var s1 := Survivors(flats[..1], hits[..1], sigs[..1], forbidden, output);
    assert s1 == [] + [l1];
    assert Survivors(flats, hits, sigs, forbidden, output) == s1 + [l2];
    assert s1 + [l2] == sigs;
    assert sigs[..1] == [l1] && [l1][..0] == [];
    assert DedupSpec([l1]) == [] + [l1];
    assert KeysOf([l1]) == [SigKey(l1)];
  }

  /** Two overloads that differ only in the order of a list nested in a
      list entry, ([[a, b]], ()) and ([b, a], ()): flatten reverses the
      nested list in the first, so both have the form [r, b, a], and only
      the first is kept, as removeBracts leaves it. */
  lemma NestedReversalMerges(r: string, a: string, b: string, forbidden: ForbiddenTest)
    requires forall flat, hits, sig :: !forbidden(flat, hits, sig)
    ensures var s1 := Signature(Str(r), Tuple([List([List([Str(a), Str(b)])]), Tuple([])]));
            var s2 := Signature(Str(r), Tuple([List([Str(b), Str(a)]), Tuple([])]));
            Pruned([s1, s2], forbidden, false) ==
              Success([Signature(Str(r), Tuple([List([List([Str(a + "]"), Str("[" + b)])]), Tuple([])]))])
  {
    var s2 := Signature(Str(r), Tuple([List([Str(b), Str(a)]), Tuple([])]));
    var nested := [Str("[" + b), Str(a + "]")];
    var flat2 := [Str("[" + b), Str(a)];
    var l1 := Signature(Str(r), Tuple([List([List(nested)]), Tuple([])]));
    ExampleFlattened(r, a, b);
    ExampleForms(Str(r), a, b);
    assert Passes(forbidden, nested, 2, l1, false) && Passes(forbidden, flat2, 2, s2, false);
    SelectFirstOfTwo([nested, flat2], l1, s2, forbidden, false);
    var back := [Str(a + "]"), Str("[" + b)];
    assert RevAll(nested[0]) == back[1] && RevAll(nested[1]) == back[0];
    assert RevAll(List(nested)).items == back;
    assert RevAll(List([List(nested)])).items == [List(back)];
    assert RevAll(Tuple([])) == Tuple([]);
    var p := Tuple([List([List(nested)]), Tuple([])]);
    assert RevAll(p).items == [List([List(back)]), Tuple([])];
    assert RevAllSeq([l1]) == [RevAllSig(l1)];
  }

  lemma ExampleFlattened(r: string, a: string, b: string)
    ensures FlattenAll([Signature(Str(r), Tuple([List([List([Str(a), Str(b)])]), Tuple([])])),
                        Signature(Str(r), Tuple([List([Str(b), Str(a)]), Tuple([])]))]) ==
      Success(([[Str("[" + b), Str(a + "]")], [Str("[" + b), Str(a)]],
               [Signature(Str(r), Tuple([List([List([Str("[" + b), Str(a + "]")])]), Tuple([])])),
                Signature(Str(r), Tuple([List([Str(b), Str(a)]), Tuple([])]))]))
  {
    var s1 := Signature(Str(r), Tuple([List([List([Str(a), Str(b)])]), Tuple([])]));
    var s2 := Signature(Str(r), Tuple([List([Str(b), Str(a)]), Tuple([])]));
    var nested := [Str("[" + b), Str(a + "]")];
    var flat2 := [Str("[" + b), Str(a)];
    var l1 := Signature(Str(r), Tuple([List([List(nested)]), Tuple([])]));
    FlattenNestedExample(a, b);
    FlattenFlatExample(a, b);
    assert [s1, s2][..1][..0] == [] && [s1, s2][..1] == [s1];
    assert FlattenAll([s1]) == Success(([] + [nested], [] + [l1]));
    assert [] + [nested] == [nested] && [] + [l1] == [l1] && [s1, s2][1] == s2;
    assert [nested] + [flat2] == [nested, flat2] && [l1] + [s2] == [l1, s2];
  }

  // ---------------------------------------------------------------------------
  // get_state_ports: the enum values of one SetXToY state

  /** A state method's mode: (mode name, value). */
  type Mode = (string, string)

  const DisallowedStatePorts: set<(string, string)> := {("InputArray", "Process")}

  const DuplicateEntry := "Duplicate entry with different value"

  predicate Skipped(name: string, m: Mode) {
    (name, m.0) in DisallowedStatePorts
  }

  /** The loop's variables: `enum_values` and `translations`. */
  datatype EnumState = EnumState(values: seq<string>, translations: map<string, string>)

  /** The loop over the modes of state `name`, as a function of its input. */
  function EnumSpec(name: string, modes: seq<Mode>): Result<EnumState, string> {
    if modes == [] then Success(EnumState([], map[]))
    else
      var n := |modes| - 1;
      var m := modes[n];
      match EnumSpec(name, modes[..n])
      case Failure(e) => Failure(e)
      case Success(st) =>
        if Skipped(name, m) then Success(st)
        else if m.0 in st.translations then
          (if st.translations[m.0] != m.1 then Failure(DuplicateEntry) else Success(st))
        else Success(EnumState(st.values + [m.0], st.translations[m.0 := m.1]))
  }

  /** The mode names that are not skipped. */
  function NamesSeen(name: string, modes: seq<Mode>): set<string> {
    if modes == [] then {}
    else
      var n := |modes| - 1;
      NamesSeen(name, modes[..n]) + (if Skipped(name, modes[n]) then {} else {modes[n].0})
  }

  /** The mode names that are not skipped, each once, in order of first
      appearance. */
  function FirstSeen(name: string, modes: seq<Mode>): seq<string> {
    if modes == [] then []
    else
      var n := |modes| - 1;
      FirstSeen(name, modes[..n]) +
      (if Skipped(name, modes[n]) || modes[n].0 in NamesSeen(name, modes[..n]) then [] else [modes[n].0])
  }

  /** Two modes that are not skipped share a name but not a value. */
  predicate HasConflict(name: string, modes: seq<Mode>) {
    exists i, j :: 0 <= i < j < |modes| && !Skipped(name, modes[i]) && !Skipped(name, modes[j]) &&
                   modes[i].0 == modes[j].0 && modes[i].1 != modes[j].1
  }

  lemma {:induction false} FailureIsFinal(name: string, modes: seq<Mode>, k: nat)
    requires k <= |modes| && EnumSpec(name, modes[..k]).Failure?
    ensures EnumSpec(name, modes) == EnumSpec(name, modes[..k])
    decreases |modes| - k
  {
    if k < |modes| {
      var n := |modes| - 1;
      assert modes[..n][..k] == modes[..k];
      FailureIsFinal(name, modes[..n], k);
    } else {
      assert modes[..k] == modes;
    }
  }

  /** On success, the enum values are the unskipped mode names in order of
      first appearance and every unskipped mode's value is recorded. */
  lemma {:induction false} EnumSpecSuccess(name: string, modes: seq<Mode>)
    ensures EnumSpec(name, modes).Success? ==>
      var st := EnumSpec(name, modes).value;
      && st.values == FirstSeen(name, modes)
      && st.translations.Keys == NamesSeen(name, modes)
      && (forall i :: 0 <= i < |modes| && !Skipped(name, modes[i]) ==>
            modes[i].0 in st.translations && st.translations[modes[i].0] == modes[i].1)
  {
    if modes != [] && EnumSpec(name, modes).Success? {
      var n := |modes| - 1;
      var pre := modes[..n];
      EnumSpecSuccess(name, pre);
      assert forall i :: 0 <= i < n ==> pre[i] == modes[i];
    }
  }

  /** The loop raises exactly when two unskipped modes give one name
      different values. */
  lemma {:induction false} EnumFailsIffConflict(name: string, modes: seq<Mode>)
    ensures EnumSpec(name, modes).Success? <==> !HasConflict(name, modes)
    ensures EnumSpec(name, modes).Failure? ==> EnumSpec(name, modes).error == DuplicateEntry
  {
    if modes != [] {
      var n := |modes| - 1;
      var pre := modes[..n];
      var m := modes[n];
      EnumFailsIffConflict(name, pre);
      if HasConflict(name, pre) {
        ConflictExtends(name, modes);
      } else {
        EnumSpecSuccess(name, pre);
        var st := EnumSpec(name, pre).value;
        if !Skipped(name, m) && m.0 in st.translations && st.translations[m.0] != m.1 {
          NamesSeenWitness(name, pre, m.0);
          var i :| 0 <= i < n && !Skipped(name, pre[i]) && pre[i].0 == m.0;
          assert modes[i] == pre[i];
        } else {
          forall i | 0 <= i < n && !Skipped(name, modes[i]) && !Skipped(name, m) && modes[i].0 == m.0
            ensures modes[i].1 == m.1
          {
            assert pre[i] == modes[i];
          }
          NoConflictExtends(name, modes);
        }
      }
    }
  }

  lemma ConflictExtends(name: string, modes: seq<Mode>)
    requires modes != [] && HasConflict(name, modes[..|modes| - 1])
    ensures HasConflict(name, modes)
  {
    var pre := modes[..|modes| - 1];
    var i, j :| 0 <= i < j < |pre| && !Skipped(name, pre[i]) && !Skipped(name, pre[j]) &&
                pre[i].0 == pre[j].0 && pre[i].1 != pre[j].1;
    assert modes[i] == pre[i] && modes[j] == pre[j];
  }

  lemma NoConflictExtends(name: string, modes: seq<Mode>)
    requires modes != [] && !HasConflict(name, modes[..|modes| - 1])
    requires var m := modes[|modes| - 1];
      forall i | 0 <= i < |modes| - 1 && !Skipped(name, modes[i]) && !Skipped(name, m) && modes[i].0 == m.0 ::
        modes[i].1 == m.1
    ensures !HasConflict(name, modes)
  {
    var n := |modes| - 1;
    var pre := modes[..n];
    forall i, j | 0 <= i < j < |modes| && !Skipped(name, modes[i]) && !Skipped(name, modes[j]) &&
                  modes[i].0 == modes[j].0
      ensures modes[i].1 == modes[j].1
    {
      if j < n {
        assert pre[i] == modes[i] && pre[j] == modes[j];
      }
    }
  }

  lemma {:induction false} NamesSeenWitness(name: string, modes: seq<Mode>, v: string)
    requires v in NamesSeen(name, modes)
    ensures exists i :: 0 <= i < |modes| && !Skipped(name, modes[i]) && modes[i].0 == v
  {
    var n := |modes| - 1;
    if Skipped(name, modes[n]) || v != modes[n].0 {
      NamesSeenWitness(name, modes[..n], v);
      var i :| 0 <= i < n && !Skipped(name, modes[..n][i]) && modes[..n][i].0 == v;
      assert modes[i] == modes[..n][i];
    }
  }

  /** No enum value is listed twice. */
  lemma {:induction false} FirstSeenDistinct(name: string, modes: seq<Mode>)
    ensures forall i, j :: 0 <= i < j < |FirstSeen(name, modes)| ==>
              FirstSeen(name, modes)[i] != FirstSeen(name, modes)[j]
    ensures forall v :: v in FirstSeen(name, modes) <==> v in NamesSeen(name, modes)
  {
    if modes != [] {
      FirstSeenDistinct(name, modes[..|modes| - 1]);
    }
  }

  /** The loop that fills `enum_values` for state `name`; raising is the
      Failure result. */
  method StateEnumValues(name: string, modes: seq<Mode>) returns (r: Result<seq<string>, string>)
    ensures r.Success? <==> EnumSpec(name, modes).Success?
    ensures r.Success? ==> r.value == EnumSpec(name, modes).value.values
    ensures r.Failure? ==> r.error == DuplicateEntry
  {
    var enumValues: seq<string> := [];
    var translations: map<string, string> := map[];
    for i := 0 to |modes|
      invariant EnumSpec(name, modes[..i]) == Success(EnumState(enumValues, translations))
    {
      var mode := modes[i];
      assert modes[..i + 1][..i] == modes[..i];
      if Skipped(name, mode) {
        continue;
      }
      if mode.0 in translations {
        if translations[mode.0] != mode.1 {
          FailureIsFinal(name, modes, i + 1);
          return Failure(DuplicateEntry);
        }
        continue;
      }
      translations := translations[mode.0 := mode.1];
      enumValues := enumValues + [mode.0];
    }
    assert modes[..|modes|] == modes;
    r := Success(enumValues);
  }
}
