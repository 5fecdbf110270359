/** Declared types, literals and paths of a model interface. */
module ModelTypes {
  import opened JsonText

  datatype ModelType =
    | IntType
    | BoolType
    | StrType
    | NullType
    | SetType(element: ModelType)
    | SeqType(element: ModelType)
    | TupleType(elements: seq<ModelType>)
    | RecordType(fields: seq<Labelled>)
    | MapType(key: ModelType, value: ModelType)
    | VariantType(cases: seq<Labelled>)
    | OpaqueType(description: Text)

  /** A record field with its wire name, or a variant case with its tag. */
  datatype Labelled = Labelled(name: Text, inner: ModelType)

  function Labels(ls: seq<Labelled>): (r: seq<Text>)
    ensures |r| == |ls| && forall i :: 0 <= i < |r| ==> r[i] == ls[i].name
  {
    seq(|ls|, i requires 0 <= i < |ls| => ls[i].name)
  }

  /** Integers are kept as the decimal text they were written with. */
  datatype Literal =
    | IntLit(text: Text)
    | BoolLit(b: bool)
    | StrLit(s: Text)
    | NullLit
    | SetLit(values: seq<Literal>)
    | SeqLit(values: seq<Literal>)
    | TupleLit(values: seq<Literal>)
    | RecordLit(fields: seq<LiteralField>)
    | MapLit(entries: seq<LiteralEntry>)
    | VariantLit(tag: Text, payload: Literal)

  datatype LiteralField = LiteralField(name: Text, value: Literal)

  datatype LiteralEntry = LiteralEntry(key: Literal, value: Literal)

  datatype Segment = FieldSegment(name: Text) | IndexSegment(index: nat) | KeySegment(key: Literal) | CaseSegment(tag: Text)
}

/** Semantic descriptors: what a binding is resolved against. */
module Descriptors {
  import opened Wrappers
  import opened JsonText
  import opened ModelTypes

  datatype Phase = Initialize | Transition

  /** `root` is the value the path starts from: the initial state or the step's parameters. */
  datatype Input = Input(id: Text, root: Phase, path: seq<Segment>, shape: ModelType)

  datatype Action = Action(id: Text, phase: Phase, wireAction: Text, aliases: seq<Text>, inputs: seq<Input>)

  datatype Observation = Observation(id: Text, wireName: Text, shape: ModelType)

  datatype Profile = Profile(configured: Option<Text>, itfVars: seq<Text>, effectiveVars: seq<Text>)

  datatype Descriptor = Descriptor(
    version: Text, model: Text, profile: Profile,
    initializers: seq<Action>, actions: seq<Action>, observations: seq<Observation>)
}
