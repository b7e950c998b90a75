/** The document entities the generator consumes: instances and their
    children, props bound to instances, data sources. Maps of the source that
    are iterated (`props.values()`, `dataSources.values()`) are sequences in
    insertion order; `instances` is only ever looked up, so it is a map. */
module Schema {
  import opened Wrappers
  import opened Json

  const SlotComponent := "Slot"
  const FragmentComponent := "Fragment"
  const CollectionComponent := "ws:collection"

  /** One token of an expression or action body as the expression engine's
      parser delivers it: verbatim code, or an identifier occurrence together
      with whether it is the target of an assignment. */
  datatype Piece = Verbatim(text: string) | Identifier(name: string, assignee: bool)

  type Code = seq<Piece>

  datatype Child = IdChild(id: string) | TextChild(text: string) | ExpressionChild(code: Code)

  datatype Instance = Instance(id: string, component: string, children: seq<Child>)

  type Instances = map<string, Instance>

  datatype ActionClause = ActionClause(args: seq<string>, code: Code)

  datatype PropValue =
    | StringValue(s: string)
    | NumberValue(n: int)
    | BooleanValue(b: bool)
    | StringsValue(items: seq<string>)
    | JsonValue(json: Json)
    | AssetValue(assetId: string)
    | PageValue(pageId: string)
    | ParameterValue(dataSourceId: string)
    | ExpressionValue(code: Code)
    | ActionValue(clauses: seq<ActionClause>)

  datatype Prop = Prop(id: string, instanceId: string, name: string, value: PropValue)

  /** A `parameter`-typed prop as the component assembler receives it. */
  datatype ParameterProp = ParameterProp(name: string, dataSourceId: string)

  datatype DataSourceKind = Variable(initial: Json) | ParameterSource | Resource(resourceId: string)

  datatype DataSource = DataSource(id: string, scopeInstanceId: Option<string>, name: string, kind: DataSourceKind)

  /** The JSON value of a literal prop (`string`, `number`, `boolean`,
      `string[]`, `json`). */
  function LiteralJson(v: PropValue): (r: Option<Json>)
    ensures r.Some? <==> v.StringValue? || v.NumberValue? || v.BooleanValue? || v.StringsValue? || v.JsonValue?
  {
    match v
    case StringValue(s) => Some(JString(s))
    case NumberValue(n) => Some(JNumber(n))
    case BooleanValue(b) => Some(JBool(b))
    case StringsValue(items) => Some(JArray(seq(|items|, i requires 0 <= i < |items| => JString(items[i]))))
    case JsonValue(j) => Some(j)
    case _ => None
  }

  /** `dataSources.get(id)`. */
  function GetDataSource(dataSources: seq<DataSource>, id: string): (r: Option<DataSource>)
    ensures r.Some? ==> r.value in dataSources && r.value.id == id
    ensures r.None? ==> forall d :: d in dataSources ==> d.id != id
  {
    if dataSources == [] then None
    else if dataSources[0].id == id then Some(dataSources[0])
    else GetDataSource(dataSources[1..], id)
  }

  ghost predicate ChildOf(instances: Instances, child: string, parent: string)
  {
    parent in instances && IdChild(child) in instances[parent].children
  }

  /** Every id child present in `instances` has a rank below `bound`. */
  ghost predicate ChildrenBelow(instances: Instances, children: seq<Child>, rank: map<string, nat>, bound: nat)
  {
    forall c :: IdChild(c) in children && c in instances ==> c in rank && rank[c] < bound
  }

  /** The instance tree is acyclic, witnessed by a rank that decreases from
      parent to child. */
  ghost predicate Ranked(instances: Instances, rank: map<string, nat>)
  {
    forall id :: id in instances ==> id in rank && ChildrenBelow(instances, instances[id].children, rank, rank[id])
  }
}
