/** The attribute dict shared by template elements and template relations, and
 *  the `updated_at` stamp every successful change writes into `metadata`. */
module Attributes {
  import opened Wrappers
  import opened PyValue

  /** `self.metadata["updated_at"] = now` */
  function Stamp(metadata: Value, now: Value): Result<Value> {
    SetItem(metadata, VStr("updated_at"), now)
  }

  /** `add_attribute`: the key must be truthy (and, for elements, a string),
   *  the value must not be None and the key must be new. */
  function AddAttribute(attrs: Value, key: Value, value: Value, stringKeys: bool): (r: Result<Value>)
    ensures attrs.VDict? ==>
              (r.Ok? <==> Truthy(key) && (stringKeys ==> key.VStr?) && value != VNone &&
                          Hashable(key) && key !in attrs.entries)
    ensures attrs.VDict? && r.Err? && Truthy(key) && (stringKeys ==> key.VStr?) && value != VNone && Hashable(key) ==>
              r.error == KeyError
  {
    if !Truthy(key) || (stringKeys && !key.VStr?) then Err(ValueError)
    else if value == VNone then Err(ValueError)
    else
      match Contains(attrs, key)
      case Err(e) => Err(e)
      case Ok(present) => if present then Err(KeyError) else SetItem(attrs, key, value)
  }

  /** `update_attribute`: the key must be truthy and already present. */
  function UpdateAttribute(attrs: Value, key: Value, value: Value): (r: Result<Value>)
    ensures attrs.VDict? ==> (r.Ok? <==> Truthy(key) && Hashable(key) && key in attrs.entries)
  {
    if !Truthy(key) then Err(ValueError)
    else
      match Contains(attrs, key)
      case Err(e) => Err(e)
      case Ok(present) => if !present then Err(KeyError) else SetItem(attrs, key, value)
  }

  /** `remove_attribute`: the key must be truthy and already present. */
  function RemoveAttribute(attrs: Value, key: Value): (r: Result<Value>)
    ensures attrs.VDict? ==> (r.Ok? <==> Truthy(key) && Hashable(key) && key in attrs.entries)
  {
    if !Truthy(key) then Err(ValueError)
    else
      match Contains(attrs, key)
      case Err(e) => Err(e)
      case Ok(present) => if !present then Err(KeyError) else DelItem(attrs, key)
  }

  /** `get_attribute`: the value, or None for an absent key. */
  function GetAttribute(attrs: Value, key: Value): Result<Value> {
    DictGet(attrs, key, VNone)
  }

  /** After an add or an update the key reads back the new value, and every
   *  other key reads back what it did before. */
  lemma WriteThenRead(attrs: map<Value, Value>, key: Value, value: Value, other: Value, stringKeys: bool)
    requires Hashable(other)
    ensures AddAttribute(VDict(attrs), key, value, stringKeys).Ok? ==>
              GetAttribute(AddAttribute(VDict(attrs), key, value, stringKeys).value, key) == Ok(value) &&
              (other != key ==> GetAttribute(AddAttribute(VDict(attrs), key, value, stringKeys).value, other) ==
                                GetAttribute(VDict(attrs), other))
    ensures UpdateAttribute(VDict(attrs), key, value).Ok? ==>
              GetAttribute(UpdateAttribute(VDict(attrs), key, value).value, key) == Ok(value) &&
              (other != key ==> GetAttribute(UpdateAttribute(VDict(attrs), key, value).value, other) ==
                                GetAttribute(VDict(attrs), other))
  {
  }

  /** `remove_attribute` deletes exactly that key: it then reads as None and
   *  the rest of the dict is as it was. */
  lemma RemoveDeletesOnlyKey(attrs: map<Value, Value>, key: Value)
    requires RemoveAttribute(VDict(attrs), key).Ok?
    ensures RemoveAttribute(VDict(attrs), key).value == VDict(attrs - {key})
    ensures GetAttribute(RemoveAttribute(VDict(attrs), key).value, key) == Ok(VNone)
  {
  }

  /** Adding an attribute and removing it again restores the dict. */
  lemma AddThenRemove(attrs: map<Value, Value>, key: Value, value: Value, stringKeys: bool)
    requires AddAttribute(VDict(attrs), key, value, stringKeys).Ok?
    ensures RemoveAttribute(AddAttribute(VDict(attrs), key, value, stringKeys).value, key) == Ok(VDict(attrs))
  {
    assert attrs[key := value] - {key} == attrs;
  }
}
