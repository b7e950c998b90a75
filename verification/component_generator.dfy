/** JSX generation for one component (`generatePropValue`,
    `generateJsxElement`, `generateJsxChildren`,
    `generateWebstudioComponent`). Each generator is a method that draws
    identifiers from a shared `Scope`; each is proved equal to a
    specification function that threads the scope's ledger explicitly. */
module ComponentGenerator {
  import opened Wrappers
  import opened TextUtil
  import opened Json
  import opened Naming
  import opened Schema
  import opened Expression
  import opened InstancesUtils
  import opened ActionGenerator

  const IdAttribute := "data-ws-id"
  const ComponentAttribute := "data-ws-component"
  const IndexAttribute := "data-ws-index"
  const ShowAttribute := "data-ws-show"

  /** What the generators read besides the scope: the instance map, the
      props and data sources in insertion order, the index of each instance
      within its ancestors, and the atomic classes of each instance. */
  datatype Context = Context(
    instances: Instances,
    props: seq<Prop>,
    dataSources: seq<DataSource>,
    indexes: map<string, nat>,
    classesMap: map<string, seq<string>>)

  // ---------------------------------------------------------------------
  // Prop values

  /** A generated prop value (`undefined` is `None`) and the ledger after it. */
  datatype PropOut = PropOut(value: Option<string>, names: Names)

  /** Props that generate no value (`undefined`): assets, pages and
      parameters whose data source is missing. */
  predicate Valueless(prop: Prop, dataSources: seq<DataSource>)
  {
    prop.value.AssetValue? || prop.value.PageValue?
    || (prop.value.ParameterValue? && GetDataSource(dataSources, prop.value.dataSourceId).None?)
  }

  /** `generatePropValue`: assets and pages have no value, literals are their
      JSON text, a parameter is the scope name of its data source (no value
      when that is missing), expressions and actions are generated. */
  function PropValueSpec(prop: Prop, dataSources: seq<DataSource>, names: Names): (r: Result<PropOut, GenError>)
    ensures r.Err? <==> prop.value.ExpressionValue? && Unbound(prop.value.code, dataSources)
    ensures r.Ok? ==> Extends(names, r.value.names) && (Injective(names) ==> Injective(r.value.names))
    ensures (r.Ok? && r.value.value.None?) <==> Valueless(prop, dataSources)
    ensures Valueless(prop, dataSources) ==> r == Ok(PropOut(None, names))
    ensures LiteralJson(prop.value).Some? ==> r == Ok(PropOut(Some(Stringify(LiteralJson(prop.value).value)), names))
    ensures prop.value.ParameterValue? && GetDataSource(dataSources, prop.value.dataSourceId).Some? ==>
              r.Ok? && prop.value.dataSourceId in r.value.names
              && r.value.value == Some(r.value.names[prop.value.dataSourceId])
  {
    match prop.value
    case AssetValue(_) => Ok(PropOut(None, names))
    case PageValue(_) => Ok(PropOut(None, names))
    case ParameterValue(id) =>
      (match GetDataSource(dataSources, id)
       case None => Ok(PropOut(None, names))
       case Some(d) =>
         var name := NameFor(names, d.id, d.name);
         Ok(PropOut(Some(name.text), name.names)))
    case ExpressionValue(code) =>
      (match ExpressionSpec(code, dataSources, names)
       case Err(e) => Err(e)
       case Ok(e) => Ok(PropOut(Some(e.text), e.names)))
    case ActionValue(clauses) =>
      var action := ActionSpec(clauses, dataSources, names);
      Ok(PropOut(Some(action.text), action.names))
    case _ => Ok(PropOut(Some(Stringify(LiteralJson(prop.value).value)), names))
  }

  method GeneratePropValue(scope: Scope, prop: Prop, dataSources: seq<DataSource>) returns (r: Result<Option<string>, GenError>)
    requires scope.Valid()
    modifies scope
    ensures scope.Valid()
    ensures match PropValueSpec(prop, dataSources, old(scope.names))
            case Ok(o) => r == Ok(o.value) && scope.names == o.names
            case Err(e) => r == Err(e)
  {
    match prop.value {
      case AssetValue(_) => return Ok(None);
      case PageValue(_) => return Ok(None);
      case ParameterValue(id) =>
        var d := GetDataSource(dataSources, id);
        if d.None? {
          return Ok(None);
        }
        var name := scope.GetName(d.value.id, d.value.name);
        return Ok(Some(name));
      case ExpressionValue(code) =>
        var e := GenerateExpression(scope, code, dataSources);
        if e.Err? {
          return Err(e.error);
        }
        return Ok(Some(e.value));
      case ActionValue(clauses) =>
        var action := GenerateAction(scope, clauses, dataSources);
        return Ok(Some(action));
      case _ =>
        return Ok(Some(Stringify(LiteralJson(prop.value).value)));
    }
  }

  // ---------------------------------------------------------------------
  // Text formats of an element

  /** The id and component attributes every element carries, and the index
      attribute when the instance has an index within its ancestors. */
  function Header(instance: Instance, indexes: map<string, nat>): string
  {
    "\n" + IdAttribute + "=" + Quote(instance.id)
    + "\n" + ComponentAttribute + "=" + Quote(instance.component)
    + (if instance.id in indexes then "\n" + IndexAttribute + "=\"" + Digits(indexes[instance.id]) + "\"" else "")
  }

  function PropAttr(name: string, value: string): string
  {
    "\n" + name + "={" + value + "}"
  }

  function ClassNameAttr(classes: seq<string>): string
  {
    if |classes| == 0 then "" else "\nclassName=" + Quote(Join(classes, " "))
  }

  /** Conditional rendering: `{(cond) &&` ... `}` when the condition is a
      non-empty (truthy) string. */
  function Guard(condition: Option<string>, body: string): string
  {
    if condition.Some? && condition.value != "" then "{(" + condition.value + ") &&\n" + body + "}\n" else body
  }

  function CollectionText(data: string, item: string, index: string, children: string): string
  {
    "{" + data + "?.map((" + item + ": any, " + index + ": number) =>\n"
    + "<Fragment key={" + index + "}>\n" + children + "</Fragment>\n" + ")}\n"
  }

  function FragmentText(name: string): string
  {
    "<" + name + " />\n"
  }

  /** A component element: self-closing exactly when the instance has no
      children. */
  function ElementText(tag: string, attrs: string, selfClosing: bool, children: string): string
  {
    if selfClosing then "<" + tag + attrs + " />\n"
    else "<" + tag + attrs + ">\n" + children + "</" + tag + ">\n"
  }

  // ---------------------------------------------------------------------
  // The props loop of generateJsxElement

  /** The loop's state: hidden for good, the show condition, the collection's
      data and item values, the classes, the attribute text, the ledger. */
  datatype Scan = Scan(hidden: bool, condition: Option<string>, data: Option<string>, item: Option<string>,
                       classes: seq<string>, attrs: string, names: Names)

  /** A prop that becomes an attribute when it has a value: one of the
      instance's own props, neither the show prop nor `className`, on an
      instance that is not a collection. */
  predicate AttributeProp(instance: Instance, p: Prop)
  {
    p.instanceId == instance.id && p.name != ShowAttribute && p.name != "className"
    && instance.component != CollectionComponent
  }

  /** One iteration of the props loop. A prop of another instance is
      skipped; a show prop that is `false` ends the loop hidden; an attribute
      prop appends `name={value}` when it has a value and nothing when it has
      none. */
  function ScanOne(instance: Instance, p: Prop, dataSources: seq<DataSource>, st: Scan): (r: Result<Scan, GenError>)
    ensures p.instanceId != instance.id ==> r == Ok(st)
    ensures var pv := PropValueSpec(p, dataSources, st.names);
      p.instanceId == instance.id ==> (r.Err? <==> pv.Err?) && (pv.Ok? ==> r.Ok? && r.value.names == pv.value.names)
    ensures r.Ok? ==> Extends(st.names, r.value.names) && (Injective(st.names) ==> Injective(r.value.names))
    ensures r.Ok? ==> |st.attrs| <= |r.value.attrs| && r.value.attrs[..|st.attrs|] == st.attrs
    ensures var pv := PropValueSpec(p, dataSources, st.names);
      pv.Ok? && AttributeProp(instance, p) ==>
        r.Ok? && r.value.attrs == st.attrs + (if pv.value.value.Some? then PropAttr(p.name, pv.value.value.value) else "")
    ensures r.Ok? && !AttributeProp(instance, p) ==> r.value.attrs == st.attrs
    ensures r.Ok? && !r.value.hidden && instance.component != CollectionComponent ==>
      r.value.classes == st.classes + ClassNames(instance, [p])
  {
    if p.instanceId != instance.id then Ok(st)
    else
      match PropValueSpec(p, dataSources, st.names)
      case Err(e) => Err(e)
      case Ok(pv) =>
        Ok(ScanOneOwn(instance, p, pv.value, st.(names := pv.names)))
  }

  /** What one of the instance's own props does to the loop's state, given
      its value. */
  function ScanOneOwn(instance: Instance, p: Prop, v: Option<string>, st1: Scan): (r: Scan)
    ensures r.names == st1.names
    ensures |st1.attrs| <= |r.attrs| && r.attrs[..|st1.attrs|] == st1.attrs
    ensures p.name != ShowAttribute && p.name != "className" && instance.component != CollectionComponent ==>
      r.attrs == st1.attrs + (if v.Some? then PropAttr(p.name, v.value) else "")
    ensures p.name == ShowAttribute || p.name == "className" || instance.component == CollectionComponent ==>
      r.attrs == st1.attrs
    ensures !r.hidden && instance.component != CollectionComponent ==>
      r.classes == st1.classes + (if p.name == "className" && p.value.StringValue? then [p.value.s] else [])
  {
    if p.name == ShowAttribute then
      if v == Some("true") then st1
      else if v == Some("false") then st1.(hidden := true)
      else st1.(condition := v)
    else if instance.component == CollectionComponent then
      st1.(data := if p.name == "data" then v else st1.data,
           item := if p.name == "item" then v else st1.item)
    else if p.name == "className" then
      if p.value.StringValue? then st1.(classes := st1.classes + [p.value.s]) else st1
    else if v.Some? then
      assert (st1.attrs + PropAttr(p.name, v.value))[..|st1.attrs|] == st1.attrs;
      st1.(attrs := st1.attrs + PropAttr(p.name, v.value))
    else st1
  }

  /** The props loop of `generateJsxElement`, in insertion order. */
  function ScanProps(instance: Instance, props: seq<Prop>, dataSources: seq<DataSource>, st: Scan): (r: Result<Scan, GenError>)
    ensures r.Ok? ==> Extends(st.names, r.value.names) && (Injective(st.names) ==> Injective(r.value.names))
    decreases |props|
  {
    if props == [] then Ok(st)
    else
      match ScanOne(instance, props[0], dataSources, st)
      case Err(e) => Err(e)
      case Ok(st1) =>
        if st1.hidden then Ok(st1)
        else
          var r := ScanProps(instance, props[1..], dataSources, st1);
          if r.Ok? then
            ExtendsTransitive(st.names, st1.names, r.value.names);
            r
          else r
  }

  function InitialScan(ctx: Context, instance: Instance, names: Names): Scan
  {
    var classes := if instance.id in ctx.classesMap then ctx.classesMap[instance.id] else [];
    Scan(false, None, None, None, classes, Header(instance, ctx.indexes), names)
  }

  /** `generateJsxElement` with the already generated `children` text. */
  function ElementSpec(ctx: Context, instance: Instance, children: string, names: Names): (r: Result<Out, GenError>)
    ensures r.Ok? ==> Extends(names, r.value.names) && (Injective(names) ==> Injective(r.value.names))
  {
    match ScanProps(instance, ctx.props, ctx.dataSources, InitialScan(ctx, instance, names))
    case Err(e) => Err(e)
    case Ok(sc) =>
      var r := ElementFromScan(instance, sc, children);
      ExtendsTransitive(names, sc.names, r.names);
      Ok(r)
  }

  /** The element once the props loop has run to completion. */
  function ElementFromScan(instance: Instance, sc: Scan, children: string): (r: Out)
    ensures Extends(sc.names, r.names) && (Injective(sc.names) ==> Injective(r.names))
  {
    if sc.hidden then Out("", sc.names)
    else if instance.component == CollectionComponent then
      if sc.data.None? || sc.item.None? then Out("", sc.names)
      else
        var index := NameFor(sc.names, instance.id + "-index", "index");
        Out(Guard(sc.condition, CollectionText(sc.data.value, sc.item.value, index.text, children)), index.names)
    else if instance.component == SlotComponent then
      Out(Guard(sc.condition, children), sc.names)
    else if instance.component == FragmentComponent then
      var fragment := NameFor(sc.names, instance.id, instance.component);
      Out(Guard(sc.condition, FragmentText(fragment.text)), fragment.names)
    else
      var tag := NameFor(sc.names, instance.component, ParseComponentName(instance.component).shortName);
      Out(Guard(sc.condition, ElementText(tag.text, sc.attrs + ClassNameAttr(sc.classes), |instance.children| == 0, children)),
          tag.names)
  }

  method GenerateJsxElement(scope: Scope, ctx: Context, instance: Instance, children: string) returns (r: Result<string, GenError>)
    requires scope.Valid()
    modifies scope
    ensures scope.Valid()
    ensures Emits(r, ElementSpec(ctx, instance, children, old(scope.names)), scope.names)
  {
    var generatedProps := Header(instance, ctx.indexes);
    var conditionValue: Option<string> := None;
    var collectionDataValue: Option<string> := None;
    var collectionItemValue: Option<string> := None;
    var classes := if instance.id in ctx.classesMap then ctx.classesMap[instance.id] else [];
    ghost var scan := ScanProps(instance, ctx.props, ctx.dataSources, InitialScan(ctx, instance, scope.names));
    for i := 0 to |ctx.props|
      invariant scope.Valid()
      invariant scan == ScanProps(instance, ctx.props[i..], ctx.dataSources,
                                  Scan(false, conditionValue, collectionDataValue, collectionItemValue,
                                       classes, generatedProps, scope.names))
    {
      var prop := ctx.props[i];
      assert ctx.props[i..][1..] == ctx.props[i + 1..];
      if prop.instanceId != instance.id {
        continue;
      }
      ghost var st := Scan(false, conditionValue, collectionDataValue, collectionItemValue, classes, generatedProps, scope.names);
      var propValue := GeneratePropValue(scope, prop, ctx.dataSources);
      if propValue.Err? {
        return Err(propValue.error);
      }
      var v := propValue.value;
      assert ScanOne(instance, prop, ctx.dataSources, st) == Ok(ScanOneOwn(instance, prop, v, st.(names := scope.names)));
      if prop.name == ShowAttribute {
        if v == Some("true") {
          continue;
        }
        if v == Some("false") {
          return Ok("");
        }
        conditionValue := v;
        continue;
      }
      if instance.component == CollectionComponent {
        if prop.name == "data" {
          collectionDataValue := v;
        }
        if prop.name == "item" {
          collectionItemValue := v;
        }
        continue;
      }
      if prop.name == "className" {
        if prop.value.StringValue? {
          classes := classes + [prop.value.s];
        }
        continue;
      }
      if v.Some? {
        generatedProps := generatedProps + PropAttr(prop.name, v.value);
      }
    }
    assert ctx.props[|ctx.props|..] == [];
    var element := RenderElement(scope, instance, conditionValue, collectionDataValue, collectionItemValue,
                                 classes, generatedProps, children);
    return Ok(element);
  }

  /** The end of `generateJsxElement`, once the props loop has run to
      completion without hiding the element. */
  method RenderElement(scope: Scope, instance: Instance, conditionValue: Option<string>,
                       collectionDataValue: Option<string>, collectionItemValue: Option<string>,
                       classes: seq<string>, attrs: string, children: string) returns (r: string)
    requires scope.Valid()
    modifies scope
    ensures scope.Valid()
    ensures var o := ElementFromScan(instance, Scan(false, conditionValue, collectionDataValue, collectionItemValue,
                                                    classes, attrs, old(scope.names)), children);
      r == o.text && scope.names == o.names
  {
    var generatedProps := attrs + ClassNameAttr(classes);
    if instance.component == CollectionComponent {
      if collectionDataValue.None? || collectionItemValue.None? {
        return "";
      }
      var indexVariable := scope.GetName(instance.id + "-index", "index");
      return Guard(conditionValue, CollectionText(collectionDataValue.value, collectionItemValue.value, indexVariable, children));
    } else if instance.component == SlotComponent {
      return Guard(conditionValue, children);
    } else if instance.component == FragmentComponent {
      var componentVariable := scope.GetName(instance.id, instance.component);
      return Guard(conditionValue, FragmentText(componentVariable));
    } else {
      var componentVariable := scope.GetName(instance.component, ParseComponentName(instance.component).shortName);
      return Guard(conditionValue, ElementText(componentVariable, generatedProps, |instance.children| == 0, children));
    }
  }

  // ---------------------------------------------------------------------
  // What the props loop guarantees

  predicate ShowsLiteral(p: Prop, instance: Instance, b: bool)
  {
    p.instanceId == instance.id && p.name == ShowAttribute && LiteralJson(p.value) == Some(JBool(b))
  }

  /** Some prop of `instance` is named `name`. */
  predicate Sets(props: seq<Prop>, instance: Instance, name: string)
  {
    exists j :: 0 <= j < |props| && props[j].instanceId == instance.id && props[j].name == name
  }

  lemma SetsTail(props: seq<Prop>, instance: Instance, name: string)
    requires props != []
    ensures Sets(props, instance, name) <==>
            (props[0].instanceId == instance.id && props[0].name == name) || Sets(props[1..], instance, name)
  {
    if Sets(props[1..], instance, name) {
      var j :| 0 <= j < |props[1..]| && props[1..][j].instanceId == instance.id && props[1..][j].name == name;
      assert props[j + 1] == props[1..][j];
    }
  }

  /** A show prop whose value is the literal `false` hides the element: the
      loop either fails earlier or ends hidden. */
  lemma {:induction false} ScanHidden(instance: Instance, props: seq<Prop>, dataSources: seq<DataSource>, j: nat)
    requires j < |props| && ShowsLiteral(props[j], instance, false)
    ensures forall st :: ScanProps(instance, props, dataSources, st).Ok? ==> ScanProps(instance, props, dataSources, st).value.hidden
    decreases |props|
  {
    StringifyBoolean(JBool(false));
    if j > 0 {
      ScanHidden(instance, props[1..], dataSources, j - 1);
    }
  }

  /** Without show props the element is never hidden and has no condition. */
  lemma {:induction false} ScanWithoutShow(instance: Instance, props: seq<Prop>, dataSources: seq<DataSource>)
    requires !Sets(props, instance, ShowAttribute)
    ensures forall st :: ScanProps(instance, props, dataSources, st).Ok? ==>
      ScanProps(instance, props, dataSources, st).value.hidden == st.hidden
      && ScanProps(instance, props, dataSources, st).value.condition == st.condition
    decreases |props|
  {
    if props != [] {
      SetsTail(props, instance, ShowAttribute);
      ScanWithoutShow(instance, props[1..], dataSources);
    }
  }

  /** One step of the props loop sets a collection binding only for a prop
      of that name. */
  lemma ScanOneKeepsBindings(instance: Instance, p: Prop, dataSources: seq<DataSource>, st: Scan)
    ensures var r := ScanOne(instance, p, dataSources, st);
      r.Ok? ==> (((p.instanceId != instance.id || p.name != "data") ==> r.value.data == st.data)
                 && ((p.instanceId != instance.id || p.name != "item") ==> r.value.item == st.item)
                 && (Valueless(p, dataSources) ==> (r.value.data.None? || r.value.data == st.data)
                                                   && (r.value.item.None? || r.value.item == st.item)))
  { }

  /** A collection value is only ever set by a prop of that name. */
  lemma {:induction false} ScanKeepsCollection(instance: Instance, props: seq<Prop>, dataSources: seq<DataSource>)
    ensures forall st :: ScanProps(instance, props, dataSources, st).Ok? ==>
      (!Sets(props, instance, "data") ==> ScanProps(instance, props, dataSources, st).value.data == st.data)
      && (!Sets(props, instance, "item") ==> ScanProps(instance, props, dataSources, st).value.item == st.item)
    decreases |props|
  {
    if props != [] {
      SetsTail(props, instance, "data");
      SetsTail(props, instance, "item");
      ScanKeepsCollection(instance, props[1..], dataSources);
      forall st | ScanProps(instance, props, dataSources, st).Ok?
        ensures !Sets(props, instance, "data") ==> ScanProps(instance, props, dataSources, st).value.data == st.data
        ensures !Sets(props, instance, "item") ==> ScanProps(instance, props, dataSources, st).value.item == st.item
      {
        ScanOneKeepsBindings(instance, props[0], dataSources, st);
      }
    }
  }

  /** The string `className` values of an instance's props, in order. */
  function ClassNames(instance: Instance, props: seq<Prop>): seq<string>
    decreases |props|
  {
    if props == [] then []
    else
      var p := props[0];
      (if p.instanceId == instance.id && p.name == "className" && p.value.StringValue? then [p.value.s] else [])
      + ClassNames(instance, props[1..])
  }

  /** Outside collections, the atomic classes are followed by the string
      `className` props. */
  lemma {:induction false} ScanClasses(instance: Instance, props: seq<Prop>, dataSources: seq<DataSource>)
    requires instance.component != CollectionComponent
    ensures forall st :: ScanProps(instance, props, dataSources, st).Ok? && !ScanProps(instance, props, dataSources, st).value.hidden ==>
      ScanProps(instance, props, dataSources, st).value.classes == st.classes + ClassNames(instance, props)
    decreases |props|
  {
    if props != [] {
      ScanClasses(instance, props[1..], dataSources);
      assert ClassNames(instance, props) == ClassNames(instance, [props[0]]) + ClassNames(instance, props[1..]);
    }
  }

  /** The attribute text only grows. */
  lemma {:induction false} ScanAttrsGrow(instance: Instance, props: seq<Prop>, dataSources: seq<DataSource>)
    ensures forall st :: ScanProps(instance, props, dataSources, st).Ok? ==>
      |st.attrs| <= |ScanProps(instance, props, dataSources, st).value.attrs|
      && ScanProps(instance, props, dataSources, st).value.attrs[..|st.attrs|] == st.attrs
    decreases |props|
  {
    if props != [] {
      ScanAttrsGrow(instance, props[1..], dataSources);
    }
  }

  /** Props bound to other instances and show props that are literally
      `true` are dropped. */
  function Relevant(instance: Instance, props: seq<Prop>): (r: seq<Prop>)
    ensures forall p :: p in r ==> p in props && p.instanceId == instance.id && !ShowsLiteral(p, instance, true)
    decreases |props|
  {
    if props == [] then []
    else if props[0].instanceId != instance.id || ShowsLiteral(props[0], instance, true) then Relevant(instance, props[1..])
    else [props[0]] + Relevant(instance, props[1..])
  }

  lemma {:induction false} ScanRelevant(instance: Instance, props: seq<Prop>, dataSources: seq<DataSource>)
    ensures forall st: Scan :: !st.hidden ==>
      ScanProps(instance, props, dataSources, st) == ScanProps(instance, Relevant(instance, props), dataSources, st)
    decreases |props|
  {
    if props != [] {
      ScanRelevant(instance, props[1..], dataSources);
      StringifyBoolean(JBool(true));
      var rest := Relevant(instance, props[1..]);
      if props[0].instanceId == instance.id && !ShowsLiteral(props[0], instance, true) {
        assert ([props[0]] + rest)[0] == props[0] && ([props[0]] + rest)[1..] == rest;
      } else {
        forall st ensures ScanOne(instance, props[0], dataSources, st) == Ok(st) {
        }
      }
    }
  }

  /** Running the loop over `pre + rest` is running it over `pre` and then,
      unless that ended hidden, over `rest`. */
  lemma {:induction false} ScanPropsAppend(instance: Instance, pre: seq<Prop>, rest: seq<Prop>,
                                           dataSources: seq<DataSource>, st: Scan)
    requires !st.hidden
    ensures ScanProps(instance, pre + rest, dataSources, st)
         == match ScanProps(instance, pre, dataSources, st)
            case Err(e) => Err(e)
            case Ok(mid) => if mid.hidden then Ok(mid) else ScanProps(instance, rest, dataSources, mid)
    decreases |pre|
  {
    if pre == [] {
      assert pre + rest == rest;
    } else {
      assert (pre + rest)[0] == pre[0] && (pre + rest)[1..] == pre[1..] + rest;
      match ScanOne(instance, pre[0], dataSources, st)
      case Err(_) =>
      case Ok(st1) =>
        if !st1.hidden {
          ScanPropsAppend(instance, pre[1..], rest, dataSources, st1);
        }
    }
  }

  /** A prop that leaves every state of the loop as it is can be dropped. */
  lemma {:induction false} ScanSkip(instance: Instance, pre: seq<Prop>, p: Prop, post: seq<Prop>,
                                    dataSources: seq<DataSource>, st: Scan)
    requires !st.hidden
    requires forall s: Scan :: ScanOne(instance, p, dataSources, s) == Ok(s)
    ensures ScanProps(instance, pre + [p] + post, dataSources, st) == ScanProps(instance, pre + post, dataSources, st)
    decreases |pre|
  {
    if pre == [] {
      assert pre + [p] + post == [p] + post && pre + post == post;
      assert ([p] + post)[0] == p && ([p] + post)[1..] == post;
    } else {
      assert (pre + [p] + post)[0] == pre[0] && (pre + [p] + post)[1..] == pre[1..] + [p] + post;
      assert (pre + post)[0] == pre[0] && (pre + post)[1..] == pre[1..] + post;
      match ScanOne(instance, pre[0], dataSources, st)
      case Err(_) =>
      case Ok(st1) =>
        if !st1.hidden {
          ScanSkip(instance, pre[1..], p, post, dataSources, st1);
        }
    }
  }

  /** A prop without a value that is neither the show prop nor a collection
      binding leaves the loop's state as it is. */
  lemma ValuelessStep(instance: Instance, p: Prop, dataSources: seq<DataSource>)
    requires Valueless(p, dataSources) && p.name != ShowAttribute
    requires instance.component == CollectionComponent ==> p.name != "data" && p.name != "item"
    ensures forall s: Scan :: ScanOne(instance, p, dataSources, s) == Ok(s)
  {
  }

  /** Every prop of the instance is a literal and none is the show prop. */
  ghost predicate LiteralProps(instance: Instance, props: seq<Prop>)
  {
    forall j :: 0 <= j < |props| && props[j].instanceId == instance.id ==>
      LiteralJson(props[j].value).Some? && props[j].name != ShowAttribute
  }

  /** The attributes of literal props: `name={json}` for each of the
      instance's literal props other than `className`, in order. */
  function LiteralAttrs(instance: Instance, props: seq<Prop>): string
    decreases |props|
  {
    if props == [] then ""
    else
      var p := props[0];
      (if p.instanceId == instance.id && p.name != "className" && LiteralJson(p.value).Some?
       then PropAttr(p.name, Stringify(LiteralJson(p.value).value)) else "")
      + LiteralAttrs(instance, props[1..])
  }

  lemma LiteralStep(instance: Instance, p: Prop, dataSources: seq<DataSource>, st: Scan)
    requires instance.component != CollectionComponent
    requires p.instanceId == instance.id ==> LiteralJson(p.value).Some? && p.name != ShowAttribute
    ensures ScanOne(instance, p, dataSources, st)
         == Ok(st.(classes := st.classes + ClassNames(instance, [p]), attrs := st.attrs + LiteralAttrs(instance, [p])))
  {
    assert [p][1..] == [];
    assert LiteralAttrs(instance, []) == "" && ClassNames(instance, []) == [];
    if p.instanceId != instance.id {
      assert ClassNames(instance, [p]) == [] && LiteralAttrs(instance, [p]) == "";
      assert st.(classes := st.classes + [], attrs := st.attrs + "") == st;
    } else {
      var v := Stringify(LiteralJson(p.value).value);
      assert PropValueSpec(p, dataSources, st.names) == Ok(PropOut(Some(v), st.names));
      if p.name == "className" {
        assert LiteralAttrs(instance, [p]) == "";
        assert ClassNames(instance, [p]) == if p.value.StringValue? then [p.value.s] else [];
        assert st.attrs + "" == st.attrs;
      } else {
        assert LiteralAttrs(instance, [p]) == PropAttr(p.name, v) + "" == PropAttr(p.name, v);
        assert ClassNames(instance, [p]) == [];
        assert st.classes + [] == st.classes;
        assert AttributeProp(instance, p);
        assert ScanOne(instance, p, dataSources, st) == Ok(st.(attrs := st.attrs + PropAttr(p.name, v)));
      }
    }
  }

  lemma LiteralHead(instance: Instance, props: seq<Prop>)
    requires props != []
    ensures ClassNames(instance, props) == ClassNames(instance, [props[0]]) + ClassNames(instance, props[1..])
    ensures LiteralAttrs(instance, props) == LiteralAttrs(instance, [props[0]]) + LiteralAttrs(instance, props[1..])
  {
    ClassNamesHead(instance, props);
    LiteralAttrsHead(instance, props);
  }

  lemma ClassNamesHead(instance: Instance, props: seq<Prop>)
    requires props != []
    ensures ClassNames(instance, props) == ClassNames(instance, [props[0]]) + ClassNames(instance, props[1..])
  {
    var p := props[0];
    var h := if p.instanceId == instance.id && p.name == "className" && p.value.StringValue? then [p.value.s] else [];
    assert [p][1..] == [] && ClassNames(instance, []) == [];
    assert ClassNames(instance, [p]) == h + [] == h;
  }

  lemma LiteralAttrsHead(instance: Instance, props: seq<Prop>)
    requires props != []
    ensures LiteralAttrs(instance, props) == LiteralAttrs(instance, [props[0]]) + LiteralAttrs(instance, props[1..])
  {
    var p := props[0];
    var h := if p.instanceId == instance.id && p.name != "className" && LiteralJson(p.value).Some?
             then PropAttr(p.name, Stringify(LiteralJson(p.value).value)) else "";
    assert [p][1..] == [] && LiteralAttrs(instance, []) == "";
    assert LiteralAttrs(instance, [p]) == h + "" == h;
  }

  /** Outside collections, a loop over literal props draws no name: it
      appends each literal as an attribute and each string `className` to
      the classes. */
  lemma {:induction false} ScanLiterals(instance: Instance, props: seq<Prop>, dataSources: seq<DataSource>, st: Scan)
    requires instance.component != CollectionComponent && LiteralProps(instance, props) && !st.hidden
    ensures ScanProps(instance, props, dataSources, st)
         == Ok(st.(classes := st.classes + ClassNames(instance, props), attrs := st.attrs + LiteralAttrs(instance, props)))
    decreases |props|
  {
    if props != [] {
      var st1 := st.(classes := st.classes + ClassNames(instance, [props[0]]),
                     attrs := st.attrs + LiteralAttrs(instance, [props[0]]));
      assert LiteralProps(instance, props[1..]) by {
        forall j | 0 <= j < |props[1..]| && props[1..][j].instanceId == instance.id
          ensures LiteralJson(props[1..][j].value).Some? && props[1..][j].name != ShowAttribute
        {
          assert props[1..][j] == props[j + 1];
        }
      }
      ScanLiterals(instance, props[1..], dataSources, st1);
      ScanLiteralsStep(instance, props, dataSources, st, st1);
    } else {
      assert st.(classes := st.classes + ClassNames(instance, props), attrs := st.attrs + LiteralAttrs(instance, props)) == st;
    }
  }

  /** The step of `ScanLiterals`: the first literal, then the rest. */
  lemma ScanLiteralsStep(instance: Instance, props: seq<Prop>, dataSources: seq<DataSource>, st: Scan, st1: Scan)
    requires props != [] && instance.component != CollectionComponent && !st.hidden
    requires props[0].instanceId == instance.id ==> LiteralJson(props[0].value).Some? && props[0].name != ShowAttribute
    requires st1 == st.(classes := st.classes + ClassNames(instance, [props[0]]), attrs := st.attrs + LiteralAttrs(instance, [props[0]]))
    requires ScanProps(instance, props[1..], dataSources, st1)
          == Ok(st1.(classes := st1.classes + ClassNames(instance, props[1..]), attrs := st1.attrs + LiteralAttrs(instance, props[1..])))
    ensures ScanProps(instance, props, dataSources, st)
         == Ok(st.(classes := st.classes + ClassNames(instance, props), attrs := st.attrs + LiteralAttrs(instance, props)))
  {
    LiteralStep(instance, props[0], dataSources, st);
    LiteralHead(instance, props);
    Regroup(st, ClassNames(instance, [props[0]]), ClassNames(instance, props[1..]),
            LiteralAttrs(instance, [props[0]]), LiteralAttrs(instance, props[1..]));
  }

  lemma Regroup(st: Scan, c0: seq<string>, c1: seq<string>, a0: string, a1: string)
    ensures var st1 := st.(classes := st.classes + c0, attrs := st.attrs + a0);
      st1.(classes := st1.classes + c1, attrs := st1.attrs + a1) == st.(classes := st.classes + (c0 + c1), attrs := st.attrs + (a0 + a1))
  {
    assert st.classes + c0 + c1 == st.classes + (c0 + c1);
    assert st.attrs + a0 + a1 == st.attrs + (a0 + a1);
  }

  /** The condition is set by the last show prop of the instance: its value,
      which is `None` when it has none, or the earlier condition when it is
      literally `true` (a `false` one hides the element instead). */
  lemma LastShowWins(instance: Instance, pre: seq<Prop>, p: Prop, post: seq<Prop>, dataSources: seq<DataSource>, st: Scan)
    requires !st.hidden
    requires p.instanceId == instance.id && p.name == ShowAttribute
    requires !Sets(post, instance, ShowAttribute)
    ensures var res := ScanProps(instance, pre + [p] + post, dataSources, st);
      var mid := ScanProps(instance, pre, dataSources, st);
      res.Ok? && !res.value.hidden ==>
        mid.Ok? && !mid.value.hidden && PropValueSpec(p, dataSources, mid.value.names).Ok?
        && var v := PropValueSpec(p, dataSources, mid.value.names).value.value;
           v != Some("false") && res.value.condition == (if v == Some("true") then mid.value.condition else v)
  {
    ScanPropsAppend(instance, pre, [p] + post, dataSources, st);
    assert pre + [p] + post == pre + ([p] + post);
    assert ([p] + post)[0] == p && ([p] + post)[1..] == post;
    ScanWithoutShow(instance, post, dataSources);
  }

  /** Some prop of `instance` named `name` has a value. */
  predicate Binds(props: seq<Prop>, instance: Instance, name: string, dataSources: seq<DataSource>)
  {
    exists j :: 0 <= j < |props| && props[j].instanceId == instance.id && props[j].name == name
                && !Valueless(props[j], dataSources)
  }

  /** A collection binding whose props all lack a value ends up without a
      value or as it was. */
  lemma {:induction false} ScanValuelessBindings(instance: Instance, props: seq<Prop>, dataSources: seq<DataSource>, st: Scan)
    ensures var res := ScanProps(instance, props, dataSources, st);
      res.Ok? ==> (!Binds(props, instance, "data", dataSources) ==> res.value.data.None? || res.value.data == st.data)
                  && (!Binds(props, instance, "item", dataSources) ==> res.value.item.None? || res.value.item == st.item)
    decreases |props|
  {
    if props != [] {
      match ScanOne(instance, props[0], dataSources, st)
      case Err(_) =>
      case Ok(st1) =>
        ScanOneKeepsBindings(instance, props[0], dataSources, st);
        if !st1.hidden {
          ScanValuelessBindings(instance, props[1..], dataSources, st1);
          forall name | name == "data" || name == "item"
            ensures !Binds(props, instance, name, dataSources) ==> !Binds(props[1..], instance, name, dataSources)
          {
            if Binds(props[1..], instance, name, dataSources) {
              var j :| 0 <= j < |props[1..]| && props[1..][j].instanceId == instance.id && props[1..][j].name == name
                       && !Valueless(props[1..][j], dataSources);
              assert props[j + 1] == props[1..][j];
            }
          }
        }
    }
  }

  // ---------------------------------------------------------------------
  // What an element is

  /** Props of other instances, and show props that are literally `true`,
      have no effect on an element. */
  lemma ElementIgnoresIrrelevantProps(ctx: Context, instance: Instance, children: string, names: Names)
    ensures ElementSpec(ctx, instance, children, names)
         == ElementSpec(ctx.(props := Relevant(instance, ctx.props)), instance, children, names)
  {
    ScanRelevant(instance, ctx.props, ctx.dataSources);
  }

  /** A show prop that is literally `false` removes the element and, with it,
      its whole subtree. */
  lemma AlwaysHiddenElement(ctx: Context, instance: Instance, children: string, names: Names, j: nat)
    requires j < |ctx.props| && ShowsLiteral(ctx.props[j], instance, false)
    ensures ElementSpec(ctx, instance, children, names).Ok? ==> ElementSpec(ctx, instance, children, names).value.text == ""
  {
    ScanHidden(instance, ctx.props, ctx.dataSources, j);
  }

  /** A collection none of whose `data` props, or none of whose `item`
      props, has a value (there is none, or each is an asset, a page or a
      parameter without data source) renders nothing. */
  lemma CollectionWithoutBinding(ctx: Context, instance: Instance, children: string, names: Names)
    requires instance.component == CollectionComponent
    requires !Binds(ctx.props, instance, "data", ctx.dataSources) || !Binds(ctx.props, instance, "item", ctx.dataSources)
    ensures ElementSpec(ctx, instance, children, names).Ok? ==> ElementSpec(ctx, instance, children, names).value.text == ""
  {
    ScanValuelessBindings(instance, ctx.props, ctx.dataSources, InitialScan(ctx, instance, names));
  }

  /** A prop without a value (an asset, a page, a parameter without data
      source) adds no attribute: unless it is the show prop or a collection
      binding, the element is as if it were absent. */
  lemma ValuelessPropIgnored(ctx: Context, instance: Instance, children: string, names: Names,
                             pre: seq<Prop>, p: Prop, post: seq<Prop>)
    requires ctx.props == pre + [p] + post
    requires Valueless(p, ctx.dataSources) && p.name != ShowAttribute
    requires instance.component == CollectionComponent ==> p.name != "data" && p.name != "item"
    ensures ElementSpec(ctx, instance, children, names) == ElementSpec(ctx.(props := pre + post), instance, children, names)
  {
    ValuelessStep(instance, p, ctx.dataSources);
    ScanSkip(instance, pre, p, post, ctx.dataSources, InitialScan(ctx, instance, names));
  }

  /** An ordinary element whose props are all literals: each literal other
      than `className` becomes `name={json}` after the header, in order, and
      the string `className` literals join the atomic classes; only the tag
      name is drawn from the scope. */
  lemma LiteralElement(ctx: Context, instance: Instance, children: string, names: Names)
    requires instance.component != CollectionComponent && instance.component != SlotComponent
    requires instance.component != FragmentComponent
    requires LiteralProps(instance, ctx.props)
    ensures var tag := NameFor(names, instance.component, ParseComponentName(instance.component).shortName);
      var classes := (if instance.id in ctx.classesMap then ctx.classesMap[instance.id] else []) + ClassNames(instance, ctx.props);
      ElementSpec(ctx, instance, children, names)
      == Ok(Out(ElementText(tag.text, Header(instance, ctx.indexes) + LiteralAttrs(instance, ctx.props) + ClassNameAttr(classes),
                            |instance.children| == 0, children),
                tag.names))
  {
    ScanLiterals(instance, ctx.props, ctx.dataSources, InitialScan(ctx, instance, names));
  }

  /** The show condition left by the props loop guards the element: a
      non-empty one wraps the unguarded rendering in `{(cond) &&` ... `}`;
      none (no show prop, or one without a value) or an empty one leaves the
      unguarded rendering as it is. */
  lemma ShowGuardsElement(ctx: Context, instance: Instance, children: string, names: Names)
    ensures var res := ScanProps(instance, ctx.props, ctx.dataSources, InitialScan(ctx, instance, names));
      res.Ok? && !res.value.hidden ==>
        var inner := ElementFromScan(instance, res.value.(condition := None), children);
        (res.value.condition.Some? && res.value.condition.value != ""
         && (instance.component == CollectionComponent ==> res.value.data.Some? && res.value.item.Some?)
         ==> ElementSpec(ctx, instance, children, names)
             == Ok(inner.(text := "{(" + res.value.condition.value + ") &&\n" + inner.text + "}\n")))
        && (res.value.condition.None? || res.value.condition == Some("")
            ==> ElementSpec(ctx, instance, children, names) == Ok(inner))
  {
    var res := ScanProps(instance, ctx.props, ctx.dataSources, InitialScan(ctx, instance, names));
    if res.Ok? && !res.value.hidden {
      assert ElementSpec(ctx, instance, children, names) == Ok(ElementFromScan(instance, res.value, children));
      if res.value.condition.None? || res.value.condition == Some("") {
        NoGuard(instance, res.value, children);
      } else if instance.component == CollectionComponent ==> res.value.data.Some? && res.value.item.Some? {
        GuardWraps(instance, res.value, children);
      }
    }
  }

  /** A missing or empty show condition adds nothing. */
  lemma NoGuard(instance: Instance, sc: Scan, children: string)
    requires sc.condition.None? || sc.condition == Some("")
    ensures ElementFromScan(instance, sc, children) == ElementFromScan(instance, sc.(condition := None), children)
  {
  }

  /** A slot without a show prop is transparent: exactly its children. */
  lemma SlotIsTransparent(ctx: Context, instance: Instance, children: string, names: Names)
    requires instance.component == SlotComponent
    requires !Sets(ctx.props, instance, ShowAttribute)
    ensures ElementSpec(ctx, instance, children, names).Ok? ==> ElementSpec(ctx, instance, children, names).value.text == children
  {
    ScanWithoutShow(instance, ctx.props, ctx.dataSources);
  }

  /** A Fragment instance becomes a reference to a component of its own,
      named after the instance. */
  lemma FragmentIsReference(ctx: Context, instance: Instance, children: string, names: Names)
    requires instance.component == FragmentComponent
    requires !Sets(ctx.props, instance, ShowAttribute)
    ensures var r := ElementSpec(ctx, instance, children, names);
      r.Ok? ==> instance.id in r.value.names && r.value.text == FragmentText(r.value.names[instance.id])
  {
    ScanWithoutShow(instance, ctx.props, ctx.dataSources);
  }

  /** A collection with both bindings and no show condition maps its data
      to the children, keyed by an index variable the scope names under
      `<id>-index`; the collection's other props emit nothing. */
  lemma CollectionMapsData(instance: Instance, sc: Scan, children: string)
    requires instance.component == CollectionComponent
    requires !sc.hidden && sc.condition.None? && sc.data.Some? && sc.item.Some?
    ensures var r := ElementFromScan(instance, sc, children);
      instance.id + "-index" in r.names &&
      r.text == CollectionText(sc.data.value, sc.item.value, r.names[instance.id + "-index"], children)
  {
  }

  /** A truthy show condition wraps what the element renders without it in
      `{(cond) &&` ... `}`, with the same names drawn. */
  lemma GuardWraps(instance: Instance, sc: Scan, children: string)
    requires !sc.hidden && sc.condition.Some? && sc.condition.value != ""
    requires instance.component == CollectionComponent ==> sc.data.Some? && sc.item.Some?
    ensures var inner := ElementFromScan(instance, sc.(condition := None), children);
      ElementFromScan(instance, sc, children) == inner.(text := "{(" + sc.condition.value + ") &&\n" + inner.text + "}\n")
  {
  }

  /** After the props loop, an unguarded ordinary element is its tag with the
      scanned attributes and the merged `className`. */
  lemma OrdinaryFromScan(instance: Instance, sc: Scan, children: string)
    requires instance.component != CollectionComponent && instance.component != SlotComponent
    requires instance.component != FragmentComponent
    requires !sc.hidden && sc.condition.None?
    ensures var r := ElementFromScan(instance, sc, children);
      instance.component in r.names &&
      r.text == ElementText(r.names[instance.component], sc.attrs + ClassNameAttr(sc.classes), |instance.children| == 0, children)
  { }

  /** Without show props, the props loop leaves the element visible and
      unguarded, merges the classes and keeps the header in front. */
  lemma OrdinaryScan(ctx: Context, instance: Instance, names: Names)
    requires instance.component != CollectionComponent
    requires !Sets(ctx.props, instance, ShowAttribute)
    ensures var res := ScanProps(instance, ctx.props, ctx.dataSources, InitialScan(ctx, instance, names));
      var header := Header(instance, ctx.indexes);
      res.Ok? ==> (!res.value.hidden && res.value.condition.None?
        && res.value.classes == (if instance.id in ctx.classesMap then ctx.classesMap[instance.id] else []) + ClassNames(instance, ctx.props)
        && |header| <= |res.value.attrs| && res.value.attrs == header + res.value.attrs[|header|..])
  {
    var st := InitialScan(ctx, instance, names);
    var res := ScanProps(instance, ctx.props, ctx.dataSources, st);
    if res.Ok? {
      ScanWithoutShow(instance, ctx.props, ctx.dataSources);
      ScanClasses(instance, ctx.props, ctx.dataSources);
      ScanAttrsGrow(instance, ctx.props, ctx.dataSources);
      var header := Header(instance, ctx.indexes);
      assert res.value.attrs[..|header|] == header;
      assert res.value.attrs == header + res.value.attrs[|header|..];
    }
  }

  /** Any other component becomes an element named by the scope after the
      component: the id and component attributes (and the index attribute)
      come first, then the other props, then the atomic classes merged with
      the string `className` props; it is self-closing exactly when the
      instance has no children. */
  lemma OrdinaryElement(ctx: Context, instance: Instance, children: string, names: Names)
    requires instance.component != CollectionComponent && instance.component != SlotComponent
    requires instance.component != FragmentComponent
    requires !Sets(ctx.props, instance, ShowAttribute)
    ensures var r := ElementSpec(ctx, instance, children, names);
      var classes := (if instance.id in ctx.classesMap then ctx.classesMap[instance.id] else []) + ClassNames(instance, ctx.props);
      r.Ok? ==> (instance.component in r.value.names
        && exists attrs :: r.value.text == ElementText(r.value.names[instance.component],
                                                       Header(instance, ctx.indexes) + attrs + ClassNameAttr(classes),
                                                       |instance.children| == 0, children))
  {
    var res := ScanProps(instance, ctx.props, ctx.dataSources, InitialScan(ctx, instance, names));
    OrdinaryScan(ctx, instance, names);
    if res.Ok? {
      var sc := res.value;
      OrdinaryFromScan(instance, sc, children);
      var header := Header(instance, ctx.indexes);
      var attrs := sc.attrs[|header|..];
      assert sc.attrs + ClassNameAttr(sc.classes) == header + attrs + ClassNameAttr(sc.classes);
    }
  }

  // ---------------------------------------------------------------------
  // Children

  /** A text child: one `{"line"}` per newline-separated line, the lines
      joined by `<br />`. */
  function TextChildText(text: string): string
  {
    var lines := Split(text, '\n');
    Join(seq(|lines|, i requires 0 <= i < |lines| => "{" + Quote(lines[i]) + "}\n"), "<br />\n")
  }

  lemma ChildrenBelowTail(instances: Instances, children: seq<Child>, rank: map<string, nat>, bound: nat)
    requires children != [] && ChildrenBelow(instances, children, rank, bound)
    ensures ChildrenBelow(instances, children[1..], rank, bound)
  {
    assert forall c :: IdChild(c) in children[1..] ==> IdChild(c) in children;
  }

  /** One child of `generateJsxChildren`: text is appended, an expression
      child replaces what was generated before it, an id child is generated
      (its own children first) unless the instance is missing. */
  function ChildStep(ctx: Context, child: Child, acc: Out, ghost rank: map<string, nat>, ghost bound: nat): (r: Result<Out, GenError>)
    requires Ranked(ctx.instances, rank) && ChildrenBelow(ctx.instances, [child], rank, bound)
    ensures r.Ok? ==> Extends(acc.names, r.value.names) && (Injective(acc.names) ==> Injective(r.value.names))
    decreases bound, 0
  {
    match child
    case TextChild(t) => Ok(Out(acc.text + TextChildText(t), acc.names))
    case ExpressionChild(code) =>
      (match ExpressionSpec(code, ctx.dataSources, acc.names)
       case Err(e) => Err(e)
       case Ok(e) => Ok(Out("{" + e.text + "}\n", e.names)))
    case IdChild(id) =>
      if id !in ctx.instances then Ok(acc)
      else
        var instance := ctx.instances[id];
        assert IdChild(id) in [child];
        match ChildrenFrom(ctx, instance.children, Out("", acc.names), rank, rank[id])
        case Err(e) => Err(e)
        case Ok(inner) =>
          match ElementSpec(ctx, instance, inner.text, inner.names)
          case Err(e) => Err(e)
          case Ok(element) =>
            ExtendsTransitive(acc.names, inner.names, element.names);
            Ok(Out(acc.text + element.text, element.names))
  }

  /** `generateJsxChildren`. */
  function ChildrenFrom(ctx: Context, children: seq<Child>, acc: Out, ghost rank: map<string, nat>, ghost bound: nat): (r: Result<Out, GenError>)
    requires Ranked(ctx.instances, rank) && ChildrenBelow(ctx.instances, children, rank, bound)
    ensures r.Ok? ==> Extends(acc.names, r.value.names) && (Injective(acc.names) ==> Injective(r.value.names))
    decreases bound, |children|
  {
    if children == [] then Ok(acc)
    else
      assert ChildrenBelow(ctx.instances, [children[0]], rank, bound) by {
        assert forall c :: IdChild(c) in [children[0]] ==> IdChild(c) in children;
      }
      match ChildStep(ctx, children[0], acc, rank, bound)
      case Err(e) => Err(e)
      case Ok(next) =>
        ChildrenBelowTail(ctx.instances, children, rank, bound);
        var r := ChildrenFrom(ctx, children[1..], next, rank, bound);
        if r.Ok? then
          ExtendsTransitive(acc.names, next.names, r.value.names);
          r
        else r
  }

  method GenerateJsxChildren(scope: Scope, ctx: Context, children: seq<Child>, ghost rank: map<string, nat>, ghost bound: nat)
    returns (r: Result<string, GenError>)
    requires scope.Valid()
    requires Ranked(ctx.instances, rank) && ChildrenBelow(ctx.instances, children, rank, bound)
    modifies scope
    ensures scope.Valid()
    ensures Emits(r, ChildrenFrom(ctx, children, Out("", old(scope.names)), rank, bound), scope.names)
    decreases bound
  {
    var generatedChildren := "";
    for i := 0 to |children|
      invariant scope.Valid()
      invariant ChildrenBelow(ctx.instances, children[i..], rank, bound)
      invariant ChildrenFrom(ctx, children, Out("", old(scope.names)), rank, bound)
             == ChildrenFrom(ctx, children[i..], Out(generatedChildren, scope.names), rank, bound)
    {
      assert children[i..][0] == children[i] && children[i..][1..] == children[i + 1..];
      ChildrenBelowTail(ctx.instances, children[i..], rank, bound);
      match children[i] {
        case TextChild(t) =>
          generatedChildren := generatedChildren + TextChildText(t);
        case ExpressionChild(code) =>
          var expression := GenerateExpression(scope, code, ctx.dataSources);
          if expression.Err? {
            return Err(expression.error);
          }
          generatedChildren := "{" + expression.value + "}\n";
        case IdChild(id) =>
          if id in ctx.instances {
            var instance := ctx.instances[id];
            assert IdChild(id) in children[i..];
            var inner := GenerateJsxChildren(scope, ctx, instance.children, rank, rank[id]);
            if inner.Err? {
              return Err(inner.error);
            }
            var element := GenerateJsxElement(scope, ctx, instance, inner.value);
            if element.Err? {
              return Err(element.error);
            }
            generatedChildren := generatedChildren + element.value;
          }
      }
    }
    assert children[|children|..] == [];
    return Ok(generatedChildren);
  }

  /** Every child but an expression child appends to the text before it. */
  lemma ChildStepAppends(ctx: Context, child: Child, t: string, names: Names, rank: map<string, nat>, bound: nat)
    requires Ranked(ctx.instances, rank) && ChildrenBelow(ctx.instances, [child], rank, bound)
    requires !child.ExpressionChild?
    ensures match ChildStep(ctx, child, Out("", names), rank, bound)
            case Ok(o) => ChildStep(ctx, child, Out(t, names), rank, bound) == Ok(Out(t + o.text, o.names))
            case Err(e) => ChildStep(ctx, child, Out(t, names), rank, bound) == Err(e)
  {
    match child
    case TextChild(x) =>
      assert "" + TextChildText(x) == TextChildText(x);
    case IdChild(id) =>
      if id in ctx.instances {
        assert IdChild(id) in [child];
        var instance := ctx.instances[id];
        var inner := ChildrenFrom(ctx, instance.children, Out("", names), rank, rank[id]);
        if inner.Ok? {
          var element := ElementSpec(ctx, instance, inner.value.text, inner.value.names);
          if element.Ok? {
            assert "" + element.value.text == element.value.text;
          }
        }
      } else {
        assert t + "" == t;
      }
  }

  /** An expression child replaces everything generated before it: whatever
      text precedes the list, the result is the same once the list holds an
      expression child. */
  lemma {:induction false} ExpressionChildReplaces(ctx: Context, children: seq<Child>, t1: string, t2: string, names: Names,
                                                   rank: map<string, nat>, bound: nat)
    requires Ranked(ctx.instances, rank) && ChildrenBelow(ctx.instances, children, rank, bound)
    requires exists k :: 0 <= k < |children| && children[k].ExpressionChild?
    ensures ChildrenFrom(ctx, children, Out(t1, names), rank, bound) == ChildrenFrom(ctx, children, Out(t2, names), rank, bound)
    decreases |children|
  {
    var k :| 0 <= k < |children| && children[k].ExpressionChild?;
    ChildrenBelowTail(ctx.instances, children, rank, bound);
    assert ChildrenBelow(ctx.instances, [children[0]], rank, bound) by {
      assert forall c :: IdChild(c) in [children[0]] ==> IdChild(c) in children;
    }
    if k > 0 && !children[0].ExpressionChild? {
      assert children[1..][k - 1].ExpressionChild?;
      ChildStepAppends(ctx, children[0], t1, names, rank, bound);
      ChildStepAppends(ctx, children[0], t2, names, rank, bound);
      var s0 := ChildStep(ctx, children[0], Out("", names), rank, bound);
      if s0.Ok? {
        ExpressionChildReplaces(ctx, children[1..], t1 + s0.value.text, t2 + s0.value.text, s0.value.names, rank, bound);
      }
    }
  }

  /** A text without newlines is one interpolated string literal. */
  lemma SingleLineText(text: string)
    requires '\n' !in text
    ensures TextChildText(text) == "{" + Quote(text) + "}\n"
  {
    SplitNoSeparator(text, '\n');
  }

  /** The id children of missing instances are dropped. */
  function Present(instances: Instances, children: seq<Child>): (r: seq<Child>)
    ensures forall c :: c in r ==> c in children && (c.IdChild? ==> c.id in instances)
    decreases |children|
  {
    if children == [] then []
    else if children[0].IdChild? && children[0].id !in instances then Present(instances, children[1..])
    else [children[0]] + Present(instances, children[1..])
  }

  /** Children that refer to missing instances contribute nothing. */
  lemma {:induction false} MissingChildrenSkipped(ctx: Context, children: seq<Child>, acc: Out, rank: map<string, nat>, bound: nat)
    requires Ranked(ctx.instances, rank) && ChildrenBelow(ctx.instances, children, rank, bound)
    ensures ChildrenBelow(ctx.instances, Present(ctx.instances, children), rank, bound)
    ensures ChildrenFrom(ctx, children, acc, rank, bound) == ChildrenFrom(ctx, Present(ctx.instances, children), acc, rank, bound)
    decreases |children|
  {
    if children != [] {
      ChildrenBelowTail(ctx.instances, children, rank, bound);
      var rest := Present(ctx.instances, children[1..]);
      assert ChildrenBelow(ctx.instances, [children[0]], rank, bound) by {
        assert forall c :: IdChild(c) in [children[0]] ==> IdChild(c) in children;
      }
      if children[0].IdChild? && children[0].id !in ctx.instances {
        forall next | ChildStep(ctx, children[0], acc, rank, bound) == Ok(next)
          ensures ChildrenFrom(ctx, children, acc, rank, bound) == ChildrenFrom(ctx, children[1..], next, rank, bound)
        {
        }
        MissingChildrenSkipped(ctx, children[1..], acc, rank, bound);
      } else {
        var p := [children[0]] + rest;
        assert p[0] == children[0] && p[1..] == rest;
        forall next | ChildStep(ctx, children[0], acc, rank, bound) == Ok(next)
          ensures ChildrenFrom(ctx, children[1..], next, rank, bound) == ChildrenFrom(ctx, rest, next, rank, bound)
        {
          MissingChildrenSkipped(ctx, children[1..], next, rank, bound);
        }
        MissingChildrenSkipped(ctx, children[1..], acc, rank, bound);
      }
    }
  }

  // ---------------------------------------------------------------------
  // The component

  /** The props destructuring and its type, as they are built. */
  datatype Signature = Signature(value: string, typ: string, names: Names)

  /** The parameter loop: each parameter whose data source exists adds
      `name: value, ` and `name: any; `. */
  function ParamsFrom(params: seq<ParameterProp>, dataSources: seq<DataSource>, acc: Signature): (r: Signature)
    ensures Extends(acc.names, r.names) && (Injective(acc.names) ==> Injective(r.names))
    decreases |params|
  {
    if params == [] then acc
    else
      var next := ParamStep(params[0], dataSources, acc);
      var r := ParamsFrom(params[1..], dataSources, next);
      ExtendsTransitive(acc.names, next.names, r.names);
      r
  }

  /** One parameter: skipped without data source, otherwise its entry uses
      the data source's scope name. */
  function ParamStep(param: ParameterProp, dataSources: seq<DataSource>, acc: Signature): (r: Signature)
    ensures Extends(acc.names, r.names) && (Injective(acc.names) ==> Injective(r.names))
    ensures GetDataSource(dataSources, param.dataSourceId).None? ==> r == acc
    ensures GetDataSource(dataSources, param.dataSourceId).Some? ==>
      param.dataSourceId in r.names
      && r.value == acc.value + (param.name + ": " + r.names[param.dataSourceId] + ", ")
      && r.typ == acc.typ + (param.name + ": any; ")
  {
    match GetDataSource(dataSources, param.dataSourceId)
    case None => acc
    case Some(d) =>
      var value := NameFor(acc.names, d.id, d.name);
      assert acc.value + param.name + ": " + value.text + ", " == acc.value + (param.name + ": " + value.text + ", ");
      assert acc.typ + param.name + ": any; " == acc.typ + (param.name + ": any; ");
      Signature(acc.value + param.name + ": " + value.text + ", ", acc.typ + param.name + ": any; ", value.names)
  }

  /** The component's parameter list: empty without parameters, otherwise
      `{ a: x, ... }: { a: any; ... }`. */
  function PropsSignature(params: seq<ParameterProp>, dataSources: seq<DataSource>, names: Names): (r: Out)
    ensures Extends(names, r.names) && (Injective(names) ==> Injective(r.names))
    ensures params == [] ==> r == Out("", names)
  {
    if |params| == 0 then Out("", names)
    else
      var sig := ParamsFrom(params, dataSources, Signature("{ ", "{ ", names));
      Out(sig.value + "}" + ": " + sig.typ + "}", sig.names)
  }

  /** The destructuring entries read with one ledger: `name: value, ` for
      each parameter whose data source exists, `value` being the data
      source's scope name. */
  function SignatureValue(params: seq<ParameterProp>, dataSources: seq<DataSource>, names: Names): string
    decreases |params|
  {
    if params == [] then ""
    else
      (if GetDataSource(dataSources, params[0].dataSourceId).Some?
       then params[0].name + ": " + Lookup(names, params[0].dataSourceId) + ", " else "")
      + SignatureValue(params[1..], dataSources, names)
  }

  /** The type entries: `name: any; ` for the same parameters. */
  function SignatureType(params: seq<ParameterProp>, dataSources: seq<DataSource>): string
    decreases |params|
  {
    if params == [] then ""
    else
      (if GetDataSource(dataSources, params[0].dataSourceId).Some? then params[0].name + ": any; " else "")
      + SignatureType(params[1..], dataSources)
  }

  /** Every parameter whose data source exists has a scope name. */
  ghost predicate ParamsNamed(params: seq<ParameterProp>, dataSources: seq<DataSource>, names: Names)
  {
    forall j :: 0 <= j < |params| && GetDataSource(dataSources, params[j].dataSourceId).Some? ==>
      params[j].dataSourceId in names
  }

  lemma {:induction false} SignatureStable(params: seq<ParameterProp>, dataSources: seq<DataSource>, earlier: Names, later: Names)
    requires ParamsNamed(params, dataSources, earlier) && Extends(earlier, later)
    ensures ParamsNamed(params, dataSources, later)
    ensures SignatureValue(params, dataSources, earlier) == SignatureValue(params, dataSources, later)
    decreases |params|
  {
    if params != [] {
      assert ParamsNamed(params[1..], dataSources, earlier) by {
        forall j | 0 <= j < |params[1..]| && GetDataSource(dataSources, params[1..][j].dataSourceId).Some?
          ensures params[1..][j].dataSourceId in earlier
        {
          assert params[1..][j] == params[j + 1];
        }
      }
      SignatureStable(params[1..], dataSources, earlier, later);
      assert GetDataSource(dataSources, params[0].dataSourceId).Some? ==> params[0].dataSourceId in earlier;
    }
  }

  /** The parameter loop emits, for each parameter in order whose data
      source exists, its destructuring entry and its type entry, and skips
      the others. */
  lemma ParamsText(params: seq<ParameterProp>, dataSources: seq<DataSource>, acc: Signature)
    ensures var r := ParamsFrom(params, dataSources, acc);
      ParamsNamed(params, dataSources, r.names)
      && r.value == acc.value + SignatureValue(params, dataSources, r.names)
      && r.typ == acc.typ + SignatureType(params, dataSources)
  {
    ParamsValueText(params, dataSources, acc);
    ParamsTypeText(params, dataSources, acc);
  }

  lemma {:induction false} ParamsTypeText(params: seq<ParameterProp>, dataSources: seq<DataSource>, acc: Signature)
    ensures ParamsFrom(params, dataSources, acc).typ == acc.typ + SignatureType(params, dataSources)
    decreases |params|
  {
    if params != [] {
      var next := ParamStep(params[0], dataSources, acc);
      ParamsTypeText(params[1..], dataSources, next);
      var t := SignatureType(params[1..], dataSources);
      var ht := if GetDataSource(dataSources, params[0].dataSourceId).Some? then params[0].name + ": any; " else "";
      assert next.typ == acc.typ + ht;
      Regroup3(acc.typ, ht, t);
    }
  }

  lemma {:induction false} ParamsValueText(params: seq<ParameterProp>, dataSources: seq<DataSource>, acc: Signature)
    ensures var r := ParamsFrom(params, dataSources, acc);
      ParamsNamed(params, dataSources, r.names) && r.value == acc.value + SignatureValue(params, dataSources, r.names)
    decreases |params|
  {
    if params != [] {
      var next := ParamStep(params[0], dataSources, acc);
      var r := ParamsFrom(params[1..], dataSources, next);
      ParamsValueText(params[1..], dataSources, next);
      if GetDataSource(dataSources, params[0].dataSourceId).Some? {
        ParamsValueUse(params, dataSources, acc, next, r);
      } else {
        ParamsValueSkip(params, dataSources, acc, r);
      }
      ParamsNamedCons(params, dataSources, r.names);
    }
  }

  lemma ParamsValueSkip(params: seq<ParameterProp>, dataSources: seq<DataSource>, acc: Signature, r: Signature)
    requires params != [] && GetDataSource(dataSources, params[0].dataSourceId).None?
    requires r.value == acc.value + SignatureValue(params[1..], dataSources, r.names)
    ensures r.value == acc.value + SignatureValue(params, dataSources, r.names)
  {
    var v := SignatureValue(params[1..], dataSources, r.names);
    assert SignatureValue(params, dataSources, r.names) == "" + v == v;
  }

  lemma ParamsValueUse(params: seq<ParameterProp>, dataSources: seq<DataSource>, acc: Signature, next: Signature, r: Signature)
    requires params != [] && GetDataSource(dataSources, params[0].dataSourceId).Some?
    requires next == ParamStep(params[0], dataSources, acc) && Extends(next.names, r.names)
    requires r.value == next.value + SignatureValue(params[1..], dataSources, r.names)
    ensures r.value == acc.value + SignatureValue(params, dataSources, r.names)
  {
    var v := SignatureValue(params[1..], dataSources, r.names);
    var hv := params[0].name + ": " + Lookup(r.names, params[0].dataSourceId) + ", ";
    assert next.value == acc.value + hv;
    assert SignatureValue(params, dataSources, r.names) == hv + v;
    Regroup3(acc.value, hv, v);
  }

  lemma Regroup3(a: string, b: string, c: string)
    ensures a + b + c == a + (b + c)
  {
  }

  lemma ParamsNamedCons(params: seq<ParameterProp>, dataSources: seq<DataSource>, names: Names)
    requires params != [] && ParamsNamed(params[1..], dataSources, names)
    requires GetDataSource(dataSources, params[0].dataSourceId).Some? ==> params[0].dataSourceId in names
    ensures ParamsNamed(params, dataSources, names)
  {
    forall j | 0 < j < |params| && GetDataSource(dataSources, params[j].dataSourceId).Some?
      ensures params[j].dataSourceId in names
    {
      assert params[j] == params[1..][j - 1];
    }
  }

  /** With parameters, the component's parameter list is
      `{ <entries>}: { <types>}` read with the final ledger. */
  lemma SignatureText(params: seq<ParameterProp>, dataSources: seq<DataSource>, names: Names)
    requires params != []
    ensures var r := PropsSignature(params, dataSources, names);
      ParamsNamed(params, dataSources, r.names)
      && r.text == "{ " + SignatureValue(params, dataSources, r.names) + "}: { " + SignatureType(params, dataSources) + "}"
  {
    ParamsText(params, dataSources, Signature("{ ", "{ ", names));
    SignatureShape(SignatureValue(params, dataSources, PropsSignature(params, dataSources, names).names),
                   SignatureType(params, dataSources));
  }

  lemma SignatureShape(entries: string, types: string)
    ensures "{ " + entries + "}" + ": " + ("{ " + types) + "}" == "{ " + entries + "}: { " + types + "}"
  {
  }

  /** A data source is declared by the component when its scope instance is
      in the component's tree and it is a variable or a resource. */
  predicate Declared(d: DataSource, ids: set<string>)
  {
    d.scopeInstanceId.Some? && d.scopeInstanceId.value in ids && !d.kind.ParameterSource?
  }

  function VariableText(value: string, setter: string, initial: string): string
  {
    "let [" + value + ", " + setter + "] = useState<any>(" + initial + ")\n"
  }

  function ResourceText(value: string, resourceName: string): string
  {
    "let " + value + " = useResource(" + resourceName + ")\n"
  }

  /** The names a declaration uses are in the ledger. */
  predicate DeclarationNamed(d: DataSource, names: Names)
  {
    match d.kind
    case Variable(_) => d.id in names && "set$" + d.id in names
    case Resource(resourceId) => d.id in names && resourceId in names
    case ParameterSource => true
  }

  /** A declaration read with a given ledger: `useState` with the value and
      setter names and the JSON initial value for a variable, `useResource`
      with the value name and the quoted resource name for a resource. */
  function DeclarationLine(d: DataSource, names: Names): string
  {
    match d.kind
    case Variable(initial) => VariableText(Lookup(names, d.id), Lookup(names, "set$" + d.id), Stringify(initial))
    case Resource(resourceId) => ResourceText(Lookup(names, d.id), Quote(Lookup(names, resourceId)))
    case ParameterSource => ""
  }

  /** One iteration of the data source loop. */
  function Declaration(d: DataSource, ids: set<string>, acc: Out): (r: Out)
    ensures Extends(acc.names, r.names) && (Injective(acc.names) ==> Injective(r.names))
    ensures !Declared(d, ids) ==> r == acc
    ensures Declared(d, ids) ==> DeclarationNamed(d, r.names) && r.text == acc.text + DeclarationLine(d, r.names)
    ensures Declared(d, ids) && d.kind.Variable? ==>
      d.id in r.names && "set$" + d.id in r.names
      && r.text == acc.text + VariableText(r.names[d.id], r.names["set$" + d.id], Stringify(d.kind.initial))
    ensures Declared(d, ids) && d.kind.Resource? ==>
      d.id in r.names && d.kind.resourceId in r.names
      && r.text == acc.text + ResourceText(r.names[d.id], Quote(r.names[d.kind.resourceId]))
  {
    if d.scopeInstanceId.None? || d.scopeInstanceId.value !in ids then acc
    else
      match d.kind
      case Variable(initial) =>
        var value := NameFor(acc.names, d.id, d.name);
        var setter := NameFor(value.names, "set$" + d.id, "set$" + d.name);
        ExtendsTransitive(acc.names, value.names, setter.names);
        Out(acc.text + VariableText(value.text, setter.text, Stringify(initial)), setter.names)
      case Resource(resourceId) =>
        var value := NameFor(acc.names, d.id, d.name);
        var resource := NameFor(value.names, resourceId, d.name);
        ExtendsTransitive(acc.names, value.names, resource.names);
        Out(acc.text + ResourceText(value.text, Quote(resource.text)), resource.names)
      case ParameterSource => acc
  }

  function DeclarationsFrom(dataSources: seq<DataSource>, ids: set<string>, acc: Out): (r: Out)
    ensures Extends(acc.names, r.names) && (Injective(acc.names) ==> Injective(r.names))
    decreases |dataSources|
  {
    if dataSources == [] then acc
    else
      var next := Declaration(dataSources[0], ids, acc);
      var r := DeclarationsFrom(dataSources[1..], ids, next);
      ExtendsTransitive(acc.names, next.names, r.names);
      r
  }

  /** The declarations of the declared data sources, in order, read with
      one ledger. */
  function DeclarationLines(dataSources: seq<DataSource>, ids: set<string>, names: Names): string
    decreases |dataSources|
  {
    if dataSources == [] then ""
    else
      (if Declared(dataSources[0], ids) then DeclarationLine(dataSources[0], names) else "")
      + DeclarationLines(dataSources[1..], ids, names)
  }

  ghost predicate DeclarationsNamed(dataSources: seq<DataSource>, ids: set<string>, names: Names)
  {
    forall j :: 0 <= j < |dataSources| && Declared(dataSources[j], ids) ==> DeclarationNamed(dataSources[j], names)
  }

  lemma {:induction false} DeclarationLinesStable(dataSources: seq<DataSource>, ids: set<string>, earlier: Names, later: Names)
    requires DeclarationsNamed(dataSources, ids, earlier) && Extends(earlier, later)
    ensures DeclarationsNamed(dataSources, ids, later)
    ensures DeclarationLines(dataSources, ids, earlier) == DeclarationLines(dataSources, ids, later)
    decreases |dataSources|
  {
    if dataSources != [] {
      assert DeclarationsNamed(dataSources[1..], ids, earlier) by {
        forall j | 0 <= j < |dataSources[1..]| && Declared(dataSources[1..][j], ids)
          ensures DeclarationNamed(dataSources[1..][j], earlier)
        {
          assert dataSources[1..][j] == dataSources[j + 1];
        }
      }
      DeclarationLinesStable(dataSources[1..], ids, earlier, later);
      forall j | 0 <= j < |dataSources| && Declared(dataSources[j], ids) ensures DeclarationNamed(dataSources[j], later) {
        assert DeclarationNamed(dataSources[j], earlier);
      }
    }
  }

  /** The data source loop emits the declaration of each declared data
      source, in order, read with the final ledger. */
  lemma {:induction false} DeclarationsText(dataSources: seq<DataSource>, ids: set<string>, acc: Out)
    ensures var r := DeclarationsFrom(dataSources, ids, acc);
      DeclarationsNamed(dataSources, ids, r.names) && r.text == acc.text + DeclarationLines(dataSources, ids, r.names)
    decreases |dataSources|
  {
    if dataSources != [] {
      var next := Declaration(dataSources[0], ids, acc);
      var r := DeclarationsFrom(dataSources[1..], ids, next);
      DeclarationsText(dataSources[1..], ids, next);
      DeclarationsTextStep(dataSources, ids, acc, next, r);
    }
  }

  /** The step of `DeclarationsText`: the first data source, then the rest. */
  lemma DeclarationsTextStep(dataSources: seq<DataSource>, ids: set<string>, acc: Out, next: Out, r: Out)
    requires dataSources != [] && next == Declaration(dataSources[0], ids, acc) && Extends(next.names, r.names)
    requires DeclarationsNamed(dataSources[1..], ids, r.names)
    requires r.text == next.text + DeclarationLines(dataSources[1..], ids, r.names)
    ensures DeclarationsNamed(dataSources, ids, r.names)
    ensures r.text == acc.text + DeclarationLines(dataSources, ids, r.names)
  {
    var d := dataSources[0];
    var h := if Declared(d, ids) then DeclarationLine(d, r.names) else "";
    if Declared(d, ids) {
      DeclarationLineStable(d, next.names, r.names);
    } else {
      assert acc.text + h == acc.text;
    }
    assert next.text == acc.text + h;
    assert DeclarationLines(dataSources, ids, r.names) == h + DeclarationLines(dataSources[1..], ids, r.names);
    Regroup3(acc.text, h, DeclarationLines(dataSources[1..], ids, r.names));
    DeclarationsNamedCons(dataSources, ids, r.names);
  }

  lemma DeclarationLineStable(d: DataSource, earlier: Names, later: Names)
    requires DeclarationNamed(d, earlier) && Extends(earlier, later)
    ensures DeclarationNamed(d, later) && DeclarationLine(d, earlier) == DeclarationLine(d, later)
  {
  }

  lemma DeclarationsNamedCons(dataSources: seq<DataSource>, ids: set<string>, names: Names)
    requires dataSources != [] && DeclarationsNamed(dataSources[1..], ids, names)
    requires Declared(dataSources[0], ids) ==> DeclarationNamed(dataSources[0], names)
    ensures DeclarationsNamed(dataSources, ids, names)
  {
    forall j | 0 < j < |dataSources| && Declared(dataSources[j], ids) ensures DeclarationNamed(dataSources[j], names) {
      assert dataSources[j] == dataSources[1..][j - 1];
    }
  }

  function DeclaredOnly(dataSources: seq<DataSource>, ids: set<string>): (r: seq<DataSource>)
    ensures forall d :: d in r <==> d in dataSources && Declared(d, ids)
    decreases |dataSources|
  {
    if dataSources == [] then []
    else if Declared(dataSources[0], ids) then [dataSources[0]] + DeclaredOnly(dataSources[1..], ids)
    else DeclaredOnly(dataSources[1..], ids)
  }

  /** Data sources scoped outside the tree (or parameters) contribute
      nothing: the declarations are those of the declared data sources
      alone, in their order. */
  lemma {:induction false} DeclarationsOnlyLocal(dataSources: seq<DataSource>, ids: set<string>, acc: Out)
    ensures DeclarationsFrom(dataSources, ids, acc) == DeclarationsFrom(DeclaredOnly(dataSources, ids), ids, acc)
    decreases |dataSources|
  {
    if dataSources != [] {
      var next := Declaration(dataSources[0], ids, acc);
      DeclarationsOnlyLocal(dataSources[1..], ids, next);
      DeclarationsOnlyLocal(dataSources[1..], ids, acc);
      if Declared(dataSources[0], ids) {
        var rest := DeclaredOnly(dataSources[1..], ids);
        assert ([dataSources[0]] + rest)[0] == dataSources[0] && ([dataSources[0]] + rest)[1..] == rest;
      }
    }
  }

  /** A data source scoped to an instance whose only parents are slots (slot
      content, which belongs to the component that fills the slot) is not
      declared by a component rooted elsewhere. */
  lemma SlotContentNotDeclared(instances: Instances, rootId: string, rank: map<string, nat>, d: DataSource)
    requires Ranked(instances, rank)
    requires d.scopeInstanceId.Some? && d.scopeInstanceId.value != rootId
    requires forall p :: ChildOf(instances, d.scopeInstanceId.value, p) ==> instances[p].component == SlotComponent
    ensures !Declared(d, FindTreeInstanceIdsExcludingSlotDescendants(instances, rootId, rank))
  {
    SubtreeOnlyDescendants(instances, rootId, true, rank);
  }

  function ComponentText(name: string, props: string, declarations: string, jsx: string): string
  {
    "const " + name + " = (" + props + ") => {\n" + declarations + "return " + jsx + "}\n"
  }

  /** `generateWebstudioComponent`: nothing for a missing root; otherwise
      the signature, the declarations of the data sources scoped inside the
      tree (slot content excluded), and the root element. */
  function ComponentSpec(ctx: Context, name: string, rootId: string, params: seq<ParameterProp>, names: Names,
                         ghost rank: map<string, nat>): (r: Result<Out, GenError>)
    requires Ranked(ctx.instances, rank)
    ensures rootId !in ctx.instances ==> r == Ok(Out("", names))
    ensures r.Ok? ==> Extends(names, r.value.names) && (Injective(names) ==> Injective(r.value.names))
  {
    if rootId !in ctx.instances then Ok(Out("", names))
    else
      var instance := ctx.instances[rootId];
      var signature := PropsSignature(params, ctx.dataSources, names);
      var ids := FindTreeInstanceIdsExcludingSlotDescendants(ctx.instances, rootId, rank);
      var declarations := DeclarationsFrom(ctx.dataSources, ids, Out("", signature.names));
      ExtendsTransitive(names, signature.names, declarations.names);
      match ChildrenFrom(ctx, instance.children, Out("", declarations.names), rank, rank[rootId])
      case Err(e) => Err(e)
      case Ok(inner) =>
        match ElementSpec(ctx, instance, inner.text, inner.names)
        case Err(e) => Err(e)
        case Ok(jsx) =>
          ExtendsTransitive(names, declarations.names, inner.names);
          ExtendsTransitive(names, inner.names, jsx.names);
          Ok(Out(ComponentText(name, signature.text, declarations.text, jsx.text), jsx.names))
  }

  /** The declarations a component emits are those of the data sources it
      declares, in their order. */
  lemma ComponentDeclarations(ctx: Context, name: string, rootId: string, params: seq<ParameterProp>, names: Names,
                              rank: map<string, nat>)
    requires Ranked(ctx.instances, rank)
    requires rootId in ctx.instances
    ensures var signature := PropsSignature(params, ctx.dataSources, names);
      var ids := FindTreeInstanceIdsExcludingSlotDescendants(ctx.instances, rootId, rank);
      var declarations := DeclarationsFrom(DeclaredOnly(ctx.dataSources, ids), ids, Out("", signature.names));
      var r := ComponentSpec(ctx, name, rootId, params, names, rank);
      r.Ok? ==> (exists jsx :: r.value.text == ComponentText(name, signature.text, declarations.text, jsx))
                && DeclarationsNamed(ctx.dataSources, ids, r.value.names)
                && exists jsx :: r.value.text == ComponentText(name, signature.text, DeclarationLines(ctx.dataSources, ids, r.value.names), jsx)
  {
    var signature := PropsSignature(params, ctx.dataSources, names);
    var ids := FindTreeInstanceIdsExcludingSlotDescendants(ctx.instances, rootId, rank);
    DeclarationsOnlyLocal(ctx.dataSources, ids, Out("", signature.names));
    var r := ComponentSpec(ctx, name, rootId, params, names, rank);
    if r.Ok? {
      var declarations := DeclarationsFrom(ctx.dataSources, ids, Out("", signature.names));
      var instance := ctx.instances[rootId];
      var inner := ChildrenFrom(ctx, instance.children, Out("", declarations.names), rank, rank[rootId]).value;
      var jsx := ElementSpec(ctx, instance, inner.text, inner.names).value;
      assert r.value.text == ComponentText(name, signature.text, declarations.text, jsx.text);
      DeclarationsText(ctx.dataSources, ids, Out("", signature.names));
      ExtendsTransitive(declarations.names, inner.names, jsx.names);
      DeclarationLinesStable(ctx.dataSources, ids, declarations.names, r.value.names);
      assert declarations.text == DeclarationLines(ctx.dataSources, ids, r.value.names);
    }
  }

  /** The parameter destructuring of `generateWebstudioComponent`. */
  method GeneratePropsSignature(scope: Scope, params: seq<ParameterProp>, dataSources: seq<DataSource>)
    returns (generatedProps: string)
    requires scope.Valid()
    modifies scope
    ensures scope.Valid()
    ensures Out(generatedProps, scope.names) == PropsSignature(params, dataSources, old(scope.names))
  {
    generatedProps := "";
    if |params| > 0 {
      var generatedPropsValue := "{ ";
      var generatedPropsType := "{ ";
      for i := 0 to |params|
        invariant scope.Valid()
        invariant ParamsFrom(params, dataSources, Signature("{ ", "{ ", old(scope.names)))
               == ParamsFrom(params[i..], dataSources, Signature(generatedPropsValue, generatedPropsType, scope.names))
      {
        assert params[i..][1..] == params[i + 1..];
        var dataSource := GetDataSource(dataSources, params[i].dataSourceId);
        if dataSource.None? {
          continue;
        }
        var valueName := scope.GetName(dataSource.value.id, dataSource.value.name);
        generatedPropsValue := generatedPropsValue + params[i].name + ": " + valueName + ", ";
        generatedPropsType := generatedPropsType + params[i].name + ": any; ";
      }
      assert params[|params|..] == [];
      generatedPropsValue := generatedPropsValue + "}";
      generatedPropsType := generatedPropsType + "}";
      generatedProps := generatedPropsValue + ": " + generatedPropsType;
    }
  }

  /** The `useState`/`useResource` declarations of the data sources scoped
      to an instance of `instanceIds`. */
  method GenerateDeclarations(scope: Scope, dataSources: seq<DataSource>, instanceIds: set<string>)
    returns (generatedDataSources: string)
    requires scope.Valid()
    modifies scope
    ensures scope.Valid()
    ensures Out(generatedDataSources, scope.names) == DeclarationsFrom(dataSources, instanceIds, Out("", old(scope.names)))
  {
    generatedDataSources := "";
    for i := 0 to |dataSources|
      invariant scope.Valid()
      invariant DeclarationsFrom(dataSources, instanceIds, Out("", old(scope.names)))
             == DeclarationsFrom(dataSources[i..], instanceIds, Out(generatedDataSources, scope.names))
    {
      assert dataSources[i..][1..] == dataSources[i + 1..];
      var dataSource := dataSources[i];
      if dataSource.scopeInstanceId.None? || dataSource.scopeInstanceId.value !in instanceIds {
        continue;
      }
      match dataSource.kind {
        case Variable(initial) =>
          var valueName := scope.GetName(dataSource.id, dataSource.name);
          var setterName := scope.GetName("set$" + dataSource.id, "set$" + dataSource.name);
          generatedDataSources := generatedDataSources + VariableText(valueName, setterName, Stringify(initial));
        case Resource(resourceId) =>
          var valueName := scope.GetName(dataSource.id, dataSource.name);
          var resourceName := scope.GetName(resourceId, dataSource.name);
          generatedDataSources := generatedDataSources + ResourceText(valueName, Quote(resourceName));
        case ParameterSource =>
      }
    }
    assert dataSources[|dataSources|..] == [];
  }

  method GenerateWebstudioComponent(scope: Scope, ctx: Context, name: string, rootId: string, params: seq<ParameterProp>,
                                    ghost rank: map<string, nat>) returns (r: Result<string, GenError>)
    requires scope.Valid()
    requires Ranked(ctx.instances, rank)
    modifies scope
    ensures scope.Valid()
    ensures Emits(r, ComponentSpec(ctx, name, rootId, params, old(scope.names), rank), scope.names)
  {
    if rootId !in ctx.instances {
      return Ok("");
    }
    var instance := ctx.instances[rootId];
    var generatedProps := GeneratePropsSignature(scope, params, ctx.dataSources);
    var instanceIds := FindTreeInstanceIdsExcludingSlotDescendants(ctx.instances, rootId, rank);
    var generatedDataSources := GenerateDeclarations(scope, ctx.dataSources, instanceIds);
    var children := GenerateJsxChildren(scope, ctx, instance.children, rank, rank[rootId]);
    if children.Err? {
      return Err(children.error);
    }
    var generatedJsx := GenerateJsxElement(scope, ctx, instance, children.value);
    if generatedJsx.Err? {
      return Err(generatedJsx.error);
    }
    return Ok(ComponentText(name, generatedProps, generatedDataSources, generatedJsx.value));
  }
}
