/**
 * The DynamoDB helpers GetItem and UpdateItem: each builds a request, hands it to the client's
 * `send` (a parameter here: the store is not part of the model) and turns the answer or the
 * failure into its own result or error.
 */
module DynamoDb {
  import opened Wrappers
  import opened JsStrings

  /** A marshalled attribute value; both helpers only ever write the string form `{ S: ... }`. */
  datatype AttributeValue = S(s: string)

  type Key = map<string, AttributeValue>

  /** `sortKeyName && sortKeyValue`: the sort key goes into the key only if both are truthy. */
  predicate SortKeyIncluded(sortKeyName: Option<string>, sortKeyValue: Option<string>) {
    Truthy(sortKeyName) && Truthy(sortKeyValue)
  }

  /** What the key object holds: the partition key, the sort key iff it is included, nothing else.
      A sort key with the partition key's name overwrites it, as the object assignment does. */
  predicate IsKeyFor(key: Key, partitionKeyName: string, partitionKeyValue: string,
                     sortKeyName: Option<string>, sortKeyValue: Option<string>)
  {
    var included := SortKeyIncluded(sortKeyName, sortKeyValue);
    && key.Keys == {partitionKeyName} + (if included then {sortKeyName.value} else {})
    && (included ==> key[sortKeyName.value] == S(sortKeyValue.value))
    && (!included || sortKeyName.value != partitionKeyName ==> key[partitionKeyName] == S(partitionKeyValue))
  }

  /** The same arguments always describe the same key, so GetItem and UpdateItem address the
      same item when given the same key arguments. */
  lemma KeyIsDetermined(k1: Key, k2: Key, partitionKeyName: string, partitionKeyValue: string,
                        sortKeyName: Option<string>, sortKeyValue: Option<string>)
    requires IsKeyFor(k1, partitionKeyName, partitionKeyValue, sortKeyName, sortKeyValue)
    requires IsKeyFor(k2, partitionKeyName, partitionKeyValue, sortKeyName, sortKeyValue)
    ensures k1 == k2
  {
  }

  /** The key construction shared by both helpers. */
  method BuildKey(partitionKeyName: string, partitionKeyValue: string,
                  sortKeyName: Option<string>, sortKeyValue: Option<string>) returns (key: Key)
    ensures IsKeyFor(key, partitionKeyName, partitionKeyValue, sortKeyName, sortKeyValue)
  {
    key := map[partitionKeyName := S(partitionKeyValue)];
    if Truthy(sortKeyName) && Truthy(sortKeyValue) {
      key := key[sortKeyName.value := S(sortKeyValue.value)];
    }
  }

  // ---------------------------------------------------------------------------------------------
  // GetItem

  datatype GetItemRequest = GetItemRequest(tableName: string, key: Key, projectionExpression: Option<string>)

  /** What the client answers to a GetItemCommand: the marshalled item, if there is one. */
  datatype GetItemOutput<Raw> = GetItemOutput(item: Option<Raw>)

  const GetItemErrorPrefix := "Failed to get item: "

  /** The response handling: null when there is no Item, the unmarshalled item otherwise; a
      failure of the store or of `unmarshall`, both inside the `try`, is rethrown with the
      GetItem prefix. */
  function GetItemResult<Raw, Item>(answer: Outcome<GetItemOutput<Raw>>, unmarshall: Raw -> Outcome<Item>): (r: Outcome<Option<Item>>)
    ensures r.Threw? <==> answer.Threw? || (answer.value.item.Some? && unmarshall(answer.value.item.value).Threw?)
    ensures answer.Threw? ==> r.error == GetItemErrorPrefix + answer.error
    ensures answer.Returned? && answer.value.item.None? ==> r == Returned(None)
    ensures answer.Returned? && answer.value.item.Some? ==>
              match unmarshall(answer.value.item.value)
              case Returned(item) => r == Returned(Some(item))
              case Threw(e) => r == Threw(GetItemErrorPrefix + e)
  {
    match answer
    case Threw(e) => Threw(GetItemErrorPrefix + e)
    case Returned(out) =>
      match out.item
      case None => Returned(None)
      case Some(raw) =>
        match unmarshall(raw)
        case Returned(item) => Returned(Some(item))
        case Threw(e) => Threw(GetItemErrorPrefix + e)
  }

  /** GetItem(tableName, partitionKeyName, partitionKeyValue, sortKeyName, sortKeyValue, attributes):
      returns the request it sends along with its result. */
  method GetItem<Raw, Item>(tableName: string, partitionKeyName: string, partitionKeyValue: string,
                            sortKeyName: Option<string>, sortKeyValue: Option<string>, attributes: Option<string>,
                            send: GetItemRequest -> Outcome<GetItemOutput<Raw>>, unmarshall: Raw -> Outcome<Item>)
    returns (request: GetItemRequest, result: Outcome<Option<Item>>)
    ensures request.tableName == tableName
    ensures IsKeyFor(request.key, partitionKeyName, partitionKeyValue, sortKeyName, sortKeyValue)
    ensures request.projectionExpression.Some? <==> Truthy(attributes)
    ensures request.projectionExpression.Some? ==> request.projectionExpression == attributes
    ensures result == GetItemResult(send(request), unmarshall)
  {
    var key := BuildKey(partitionKeyName, partitionKeyValue, sortKeyName, sortKeyValue);
    request := GetItemRequest(tableName, key, None);
    if Truthy(attributes) {
      request := request.(projectionExpression := attributes);
    }
    result := GetItemResult(send(request), unmarshall);
  }

  // ---------------------------------------------------------------------------------------------
  // UpdateItem

  datatype UpdateItemRequest = UpdateItemRequest(
    tableName: string,
    key: Key,
    updateExpression: string,
    expressionAttributeNames: map<string, string>,
    expressionAttributeValues: map<string, AttributeValue>,
    returnValues: string)

  /** What the client answers to an UpdateItemCommand: the raw (still marshalled) Attributes, if any. */
  datatype UpdateItemOutput<Raw> = UpdateItemOutput(attributes: Option<Raw>)

  const UpdateItemErrorPrefix := "Failed to update item: "
  const ClauseSeparator := ", "

  function NamePlaceholder(attribute: string): string {
    "#" + attribute
  }

  function ValuePlaceholder(attribute: string): string {
    ":" + attribute
  }

  /** The clause `#a = :a` for attribute a. */
  function Clause(attribute: string): string {
    NamePlaceholder(attribute) + " = " + ValuePlaceholder(attribute)
  }

  /** One clause per entry of `Object.entries(updateValues)`, in entry order. */
  function Clauses(entries: seq<(string, string)>): (r: seq<string>)
    ensures |r| == |entries|
    ensures forall i :: 0 <= i < |entries| ==> r[i] == Clause(entries[i].0)
  {
    seq(|entries|, i requires 0 <= i < |entries| => Clause(entries[i].0))
  }

  /** No later entry has the same attribute as entry i: its value is the one the object keeps. */
  predicate LastForAttribute(entries: seq<(string, string)>, i: int)
    requires 0 <= i < |entries|
  {
    forall j :: i < j < |entries| ==> entries[j].0 != entries[i].0
  }

  /** The three expression parts UpdateItem sends, for the entries `entries`: the SET expression,
      the names map `#a -> a` over exactly the entry attributes, and the values map
      `:a -> { S: v }` over exactly the entry attributes, v being the attribute's last value. */
  predicate IsSetExpressionFor(expression: string, names: map<string, string>,
                               values: map<string, AttributeValue>, entries: seq<(string, string)>)
  {
    && expression == "SET " + Join(Clauses(entries), ClauseSeparator)
    && NamesBuilt(names, entries)
    && ValuesBuilt(values, entries)
  }

  /** The names map `#a -> a` over exactly the attributes of `entries`. */
  predicate NamesBuilt(names: map<string, string>, entries: seq<(string, string)>) {
    && names.Keys == (set i | 0 <= i < |entries| :: NamePlaceholder(entries[i].0))
    && (forall i :: 0 <= i < |entries| ==> names[NamePlaceholder(entries[i].0)] == entries[i].0)
  }

  /** The values map `:a -> { S: v }` over exactly the attributes of `entries`, v the last value. */
  predicate ValuesBuilt(values: map<string, AttributeValue>, entries: seq<(string, string)>) {
    && values.Keys == (set i | 0 <= i < |entries| :: ValuePlaceholder(entries[i].0))
    && (forall i :: 0 <= i < |entries| && LastForAttribute(entries, i) ==>
          values[ValuePlaceholder(entries[i].0)] == S(entries[i].1))
  }

  /** The response handling: the raw Attributes or null, and a store failure rethrown with the
      UpdateItem prefix. */
  function UpdateItemResult<Raw>(answer: Outcome<UpdateItemOutput<Raw>>): (r: Outcome<Option<Raw>>)
    ensures answer.Threw? <==> r.Threw?
    ensures answer.Threw? ==> r.error == UpdateItemErrorPrefix + answer.error
    ensures answer.Returned? ==> r == Returned(answer.value.attributes)
  {
    match answer
    case Threw(e) => Threw(UpdateItemErrorPrefix + e)
    case Returned(out) => Returned(out.attributes)
  }

  lemma NamePlaceholderInjective(a: string, b: string)
    requires NamePlaceholder(a) == NamePlaceholder(b)
    ensures a == b
  {
    assert a == NamePlaceholder(a)[1..];
  }

  lemma ValuePlaceholderInjective(a: string, b: string)
    requires ValuePlaceholder(a) == ValuePlaceholder(b)
    ensures a == b
  {
    assert a == ValuePlaceholder(a)[1..];
  }

  lemma NameKeysAppend(p: seq<(string, string)>, x: (string, string))
    ensures (set i | 0 <= i < |p + [x]| :: NamePlaceholder((p + [x])[i].0))
         == (set i | 0 <= i < |p| :: NamePlaceholder(p[i].0)) + {NamePlaceholder(x.0)}
  {
    assert forall i :: 0 <= i < |p| ==> (p + [x])[i] == p[i];
    assert (p + [x])[|p|] == x;
  }

  lemma ValueKeysAppend(p: seq<(string, string)>, x: (string, string))
    ensures (set i | 0 <= i < |p + [x]| :: ValuePlaceholder((p + [x])[i].0))
         == (set i | 0 <= i < |p| :: ValuePlaceholder(p[i].0)) + {ValuePlaceholder(x.0)}
  {
    assert forall i :: 0 <= i < |p| ==> (p + [x])[i] == p[i];
    assert (p + [x])[|p|] == x;
  }

  /** Appending an entry adds its name to the names map. */
  lemma NamesAppend(p: seq<(string, string)>, x: (string, string), names: map<string, string>)
    requires NamesBuilt(names, p)
    ensures NamesBuilt(names[NamePlaceholder(x.0) := x.0], p + [x])
  {
    var q, updated := p + [x], names[NamePlaceholder(x.0) := x.0];
    NameKeysAppend(p, x);
    forall i | 0 <= i < |q|
      ensures updated[NamePlaceholder(q[i].0)] == q[i].0
    {
      if i < |p| {
        assert q[i] == p[i];
        if NamePlaceholder(p[i].0) == NamePlaceholder(x.0) {
          NamePlaceholderInjective(p[i].0, x.0);
        }
      }
    }
  }

  /** Appending an entry sets its attribute's value, overwriting an earlier one. */
  lemma ValuesAppend(p: seq<(string, string)>, x: (string, string), values: map<string, AttributeValue>)
    requires ValuesBuilt(values, p)
    ensures ValuesBuilt(values[ValuePlaceholder(x.0) := S(x.1)], p + [x])
  {
    var q, updated := p + [x], values[ValuePlaceholder(x.0) := S(x.1)];
    ValueKeysAppend(p, x);
    forall i | 0 <= i < |q| && LastForAttribute(q, i)
      ensures updated[ValuePlaceholder(q[i].0)] == S(q[i].1)
    {
      if i < |p| {
        assert q[i] == p[i] && q[|p|] == x;
        assert x.0 != p[i].0;
        if ValuePlaceholder(p[i].0) == ValuePlaceholder(x.0) {
          ValuePlaceholderInjective(p[i].0, x.0);
        }
        assert forall j :: i < j < |p| ==> q[j] == p[j];
        assert LastForAttribute(p, i);
      }
    }
  }

  /** The entry loop of UpdateItem: one clause, one name and one value per entry. */
  method BuildSetExpression(updateValues: seq<(string, string)>)
    returns (expression: string, names: map<string, string>, values: map<string, AttributeValue>)
    ensures IsSetExpressionFor(expression, names, values, updateValues)
  {
    var updateExpressions: seq<string> := [];
    names, values := map[], map[];
    var n := 0;
    while n < |updateValues|
      invariant 0 <= n <= |updateValues|
      invariant updateExpressions == Clauses(updateValues[..n])
      invariant NamesBuilt(names, updateValues[..n])
      invariant ValuesBuilt(values, updateValues[..n])
    {
      var (attribute, value) := updateValues[n];
      var attributeKey := NamePlaceholder(attribute);
      var valueKey := ValuePlaceholder(attribute);
      assert updateValues[..n + 1] == updateValues[..n] + [updateValues[n]];
      NamesAppend(updateValues[..n], updateValues[n], names);
      ValuesAppend(updateValues[..n], updateValues[n], values);
      updateExpressions := updateExpressions + [attributeKey + " = " + valueKey];
      names := names[attributeKey := attribute];
      values := values[valueKey := S(value)];
      n := n + 1;
    }
    assert updateValues[..n] == updateValues;
    expression := "SET " + Join(updateExpressions, ClauseSeparator);
  }

  /** UpdateItem(tableName, partitionKeyName, partitionKeyValue, sortKeyName, sortKeyValue, updateValues),
      with `updateValues` given as its `Object.entries` sequence: returns the request it sends along
      with its result. */
  method UpdateItem<Raw>(tableName: string, partitionKeyName: string, partitionKeyValue: string,
                         sortKeyName: Option<string>, sortKeyValue: Option<string>,
                         updateValues: seq<(string, string)>,
                         send: UpdateItemRequest -> Outcome<UpdateItemOutput<Raw>>)
    returns (request: UpdateItemRequest, result: Outcome<Option<Raw>>)
    ensures request.tableName == tableName && request.returnValues == "ALL_NEW"
    ensures IsKeyFor(request.key, partitionKeyName, partitionKeyValue, sortKeyName, sortKeyValue)
    ensures IsSetExpressionFor(request.updateExpression, request.expressionAttributeNames,
                               request.expressionAttributeValues, updateValues)
    ensures updateValues == [] ==>
              (request.updateExpression == "SET "
               && request.expressionAttributeNames == map[]
               && request.expressionAttributeValues == map[])
    ensures result == UpdateItemResult(send(request))
  {
    var key := BuildKey(partitionKeyName, partitionKeyValue, sortKeyName, sortKeyValue);
    var expression, names, values := BuildSetExpression(updateValues);
    request := UpdateItemRequest(tableName, key, expression, names, values, "ALL_NEW");
    result := UpdateItemResult(send(request));
  }

  /** No clause contains a comma when its attribute name does not. */
  lemma ClauseHasNoComma(a: string)
    requires forall c :: 0 <= c < |a| ==> a[c] != ','
    ensures forall c :: 0 <= c < |Clause(a)| ==> Clause(a)[c] != ','
  {
    assert Clause(a) == "#" + a + " = :" + a;
  }

  /** When no attribute name contains a comma, splitting the expression after "SET " on ", "
      gives back the clauses one per entry, in entry order. */
  lemma SetExpressionSplitsIntoClauses(expression: string, names: map<string, string>,
                                       values: map<string, AttributeValue>, entries: seq<(string, string)>)
    requires IsSetExpressionFor(expression, names, values, entries)
    requires entries != []
    requires forall i, c :: 0 <= i < |entries| && 0 <= c < |entries[i].0| ==> entries[i].0[c] != ','
    ensures expression[..4] == "SET "
    ensures Split(expression[4..], ClauseSeparator) == Clauses(entries)
  {
    var cs := Clauses(entries);
    forall k | 0 <= k < |cs|
      ensures forall c :: 0 <= c < |cs[k]| ==> cs[k][c] != ClauseSeparator[0]
    {
      ClauseHasNoComma(entries[k].0);
    }
    assert expression[4..] == Join(cs, ClauseSeparator);
    SplitJoin(cs, ClauseSeparator);
  }
}
