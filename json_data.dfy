/** `JsonData`, the mapper's generic JSON value: a type tag, one payload field
    per kind of value, the ordered dictionary of an object, and a cache of the
    serialised text. Child values are references to other `JsonData` instances
    (null allowed); this model stores them but never looks inside them. */
module Json {
  import opened Wrappers
  import opened Ints
  import opened JsonObject
  import JsonText

  /** The tag saying which payload field is meaningful. */
  datatype JsonType = None | Object | Array | String | Int | Long | Double | Boolean

  /** The exceptions the class throws. */
  datatype JsonError =
    | InvalidOperation   // wrong kind of value for the operation
    | InvalidCast        // explicit conversion to the wrong .NET type
    | KeyNotFound        // the object has no such property
    | ArgumentOutOfRange // index outside the array or the entry list
    | DuplicateKey       // IDictionary.Add of a property that is already there
    | NullReference      // a member reached through a null reference

  /** A System.Double, as its IEEE 754 bit pattern. */
  type DoubleBits = bv64

  predicate IsNaN(d: DoubleBits) {
    d & 0x7FF0_0000_0000_0000 == 0x7FF0_0000_0000_0000 && d & 0x000F_FFFF_FFFF_FFFF != 0
  }

  predicate IsZero(d: DoubleBits) {
    d & 0x7FFF_FFFF_FFFF_FFFF == 0
  }

  /** `Double.Equals`: numeric equality, except that NaN equals NaN. */
  predicate DoubleEquals(a: DoubleBits, b: DoubleBits) {
    a == b || (IsNaN(a) && IsNaN(b)) || (IsZero(a) && IsZero(b))
  }

  /** `Double.Equals` is an equivalence, coarser than bit equality. */
  lemma DoubleEqualsIsEquivalence(a: DoubleBits, b: DoubleBits, c: DoubleBits)
    ensures DoubleEquals(a, a)
    ensures DoubleEquals(a, b) ==> DoubleEquals(b, a)
    ensures DoubleEquals(a, b) && DoubleEquals(b, c) ==> DoubleEquals(a, c)
    ensures DoubleEquals(0, 0x8000_0000_0000_0000)
  {
  }

  /** What `ToString` yields. The invariant-culture text of a double is not
      modelled and is represented by the bits. */
  datatype Rendering = Text(text: string) | NullText | DoubleText(bits: DoubleBits)

  class JsonData {
    var instArray: seq<JsonData?>
    var instBoolean: bool
    var instDouble: DoubleBits
    var instInt: int32
    var instLong: int64
    var instObject: map<string, JsonData?>
    /** `None` is a null string. */
    var instString: Option<string>
    /** The cached result of `ToJson`; `None` when nothing is cached. */
    var json: Option<string>
    var jsonType: JsonType
    /** The object's entries in insertion order (the IOrderedDictionary view). */
    var objectList: seq<Entry<JsonData?>>

    /** The dictionary and the entry list always describe the same object. */
    ghost predicate Valid()
      reads this
    {
      InSync(instObject, objectList)
    }

    /** The scalar payload fields, grouped to state what an operation leaves alone. */
    ghost function Scalars(): (bool, DoubleBits, int32, int64, Option<string>)
      reads this
    {
      (instBoolean, instDouble, instInt, instLong, instString)
    }

    /** `new JsonData()`: an uninitialised value; the collections are empty. */
    constructor ()
      ensures Valid() && jsonType == JsonType.None && json == Option.None
      ensures instArray == [] && instObject == map[] && objectList == []
      ensures Scalars() == (false, 0, 0, 0, Option.None)
    {
      instArray := [];
      instBoolean := false;
      instDouble := 0;
      instInt := 0;
      instLong := 0;
      instObject := map[];
      instString := Option.None;
      json := Option.None;
      jsonType := JsonType.None;
      objectList := [];
    }

    constructor FromBoolean(b: bool)
      ensures Valid() && jsonType == Boolean && json == Option.None
      ensures instArray == [] && instObject == map[] && objectList == []
      ensures Scalars() == (b, 0, 0, 0, Option.None)
      ensures ToBoolean(this) == Success(b)
    {
      instArray := [];
      instBoolean := b;
      instDouble := 0;
      instInt := 0;
      instLong := 0;
      instObject := map[];
      instString := Option.None;
      json := Option.None;
      jsonType := Boolean;
      objectList := [];
    }

    constructor FromDouble(d: DoubleBits)
      ensures Valid() && jsonType == Double && json == Option.None
      ensures instArray == [] && instObject == map[] && objectList == []
      ensures Scalars() == (false, d, 0, 0, Option.None)
      ensures ToDouble(this) == Success(d)
    {
      instArray := [];
      instBoolean := false;
      instDouble := d;
      instInt := 0;
      instLong := 0;
      instObject := map[];
      instString := Option.None;
      json := Option.None;
      jsonType := Double;
      objectList := [];
    }

    constructor FromInt(n: int32)
      ensures Valid() && jsonType == Int && json == Option.None
      ensures instArray == [] && instObject == map[] && objectList == []
      ensures Scalars() == (false, 0, n, 0, Option.None)
      ensures ToInt(this) == Success(n)
    {
      instArray := [];
      instBoolean := false;
      instDouble := 0;
      instInt := n;
      instLong := 0;
      instObject := map[];
      instString := Option.None;
      json := Option.None;
      jsonType := Int;
      objectList := [];
    }

    constructor FromLong(n: int64)
      ensures Valid() && jsonType == Long && json == Option.None
      ensures instArray == [] && instObject == map[] && objectList == []
      ensures Scalars() == (false, 0, 0, n, Option.None)
      ensures ToLong(this) == Success(n)
    {
      instArray := [];
      instBoolean := false;
      instDouble := 0;
      instInt := 0;
      instLong := n;
      instObject := map[];
      instString := Option.None;
      json := Option.None;
      jsonType := Long;
      objectList := [];
    }

    /** `new JsonData(string)`; the string may be null. */
    constructor FromString(s: Option<string>)
      ensures Valid() && jsonType == String && json == Option.None
      ensures instArray == [] && instObject == map[] && objectList == []
      ensures Scalars() == (false, 0, 0, 0, s)
      ensures ToText(this) == Success(s)
    {
      instArray := [];
      instBoolean := false;
      instDouble := 0;
      instInt := 0;
      instLong := 0;
      instObject := map[];
      instString := s;
      json := Option.None;
      jsonType := String;
      objectList := [];
    }

    // ----- collections -----

    /** `EnsureCollection`: only an array or an object is a collection. */
    predicate IsCollection()
      reads this
    {
      jsonType == Array || jsonType == Object
    }

    /** `Count`: the number of elements of an array or of properties of an
        object, which is also the length of the entry list. */
    function Count(): (r: Result<nat, JsonError>)
      requires Valid()
      reads this
      ensures r.Success? <==> IsCollection()
      ensures r.Failure? ==> r.error == InvalidOperation
      ensures jsonType == Array ==> r == Success(|instArray|)
      ensures jsonType == Object ==> r == Success(|objectList|)
    {
      SyncSize(instObject, objectList);
      if jsonType == Array then Success(|instArray|)
      else if jsonType == Object then Success(|instObject|)
      else Failure(InvalidOperation)
    }

    /** `EnsureDictionary`: an uninitialised value becomes an empty object; an
        object stays as it is; anything else throws. */
    method EnsureDictionary() returns (r: Outcome<JsonError>)
      requires Valid()
      modifies this
      ensures Valid()
      ensures r.Pass? <==> old(jsonType) == Object || old(jsonType) == JsonType.None
      ensures r.Fail? ==> r.error == InvalidOperation && unchanged(this)
      ensures old(jsonType) == Object ==> unchanged(this)
      ensures old(jsonType) == JsonType.None ==>
        && jsonType == Object && instObject == map[] && objectList == []
        && instArray == old(instArray) && Scalars() == old(Scalars()) && json == old(json)
    {
      if jsonType == Object {
        return Pass;
      }
      if jsonType != JsonType.None {
        return Fail(InvalidOperation);
      }
      jsonType := Object;
      instObject := map[];
      objectList := [];
      r := Pass;
    }

    /** `EnsureList`: an uninitialised value becomes an empty array; an array
        stays as it is; anything else throws. */
    method EnsureList() returns (r: Outcome<JsonError>)
      requires Valid()
      modifies this
      ensures Valid()
      ensures r.Pass? <==> old(jsonType) == Array || old(jsonType) == JsonType.None
      ensures r.Fail? ==> r.error == InvalidOperation && unchanged(this)
      ensures old(jsonType) == Array ==> unchanged(this)
      ensures old(jsonType) == JsonType.None ==>
        && jsonType == Array && instArray == []
        && instObject == old(instObject) && objectList == old(objectList)
        && Scalars() == old(Scalars()) && json == old(json)
    {
      if jsonType == Array {
        return Pass;
      }
      if jsonType != JsonType.None {
        return Fail(InvalidOperation);
      }
      jsonType := Array;
      instArray := [];
      r := Pass;
    }

    /** Getter of `this[string]`: the property's value. An uninitialised value
        becomes an empty object first, so the lookup then fails. */
    method GetProperty(name: string) returns (r: Result<JsonData?, JsonError>)
      requires Valid()
      modifies this
      ensures Valid()
      ensures old(jsonType) == Object ==> unchanged(this)
      ensures old(jsonType) == Object && name in instObject ==> r == Success(instObject[name])
      ensures old(jsonType) == Object && name !in instObject ==> r == Failure(KeyNotFound)
      ensures old(jsonType) == JsonType.None ==>
        && r == Failure(KeyNotFound)
        && jsonType == Object && instObject == map[] && objectList == []
        && instArray == old(instArray) && Scalars() == old(Scalars()) && json == old(json)
      ensures old(!IsCollection() && jsonType != JsonType.None) || old(jsonType) == Array ==>
        r == Failure(InvalidOperation) && unchanged(this)
    {
      var o := EnsureDictionary();
      if o.Fail? {
        return Failure(o.error);
      }
      if name in instObject {
        r := Success(instObject[name]);
      } else {
        r := Failure(KeyNotFound);
      }
    }

    /** Setter of `this[string]`: an existing property gets the new value
        where it stands in the entry list, a new one is appended; the cached
        text is dropped. */
    method SetProperty(name: string, value: JsonData?) returns (r: Outcome<JsonError>)
      requires Valid()
      modifies this
      ensures Valid()
      ensures r.Pass? <==> old(jsonType) == Object || old(jsonType) == JsonType.None
      ensures r.Fail? ==> r.error == InvalidOperation && unchanged(this)
      ensures old(jsonType) == Object ==>
        && jsonType == Object && json == Option.None
        && instObject == old(instObject)[name := value]
        && objectList == PutEntry(old(objectList), name, value)
        && instArray == old(instArray) && Scalars() == old(Scalars())
      ensures old(jsonType) == JsonType.None ==>
        && jsonType == Object && json == Option.None
        && instObject == map[name := value] && objectList == [Entry(name, value)]
        && instArray == old(instArray) && Scalars() == old(Scalars())
    {
      var o := EnsureDictionary();
      if o.Fail? {
        return o;
      }
      PutKeepsSync(instObject, objectList, name, value);
      PutInEntryList(name, value, name in instObject);
      instObject := instObject[name := value];
      json := Option.None;
      r := Pass;
    }

    /** The entry-list half of the `this[string]` setter: the search loop
        that replaces the entry of an existing property where it stands, or
        the append of a new one. */
    method PutInEntryList(name: string, value: JsonData?, present: bool)
      requires DistinctKeys(objectList) && present == (name in KeySet(objectList))
      modifies this`objectList
      ensures objectList == PutEntry(old(objectList), name, value)
    {
      var entry := Entry(name, value);
      if present {
        ghost var l0 := objectList;
        var i := 0;
        while i < |objectList|
          invariant 0 <= i <= |objectList| && objectList == l0
          invariant i <= IndexOfKey(l0, name)
        {
          if objectList[i].key == name {
            UniqueIndex(objectList, name, i);
            objectList := objectList[i := entry];
            break;
          }
          i := i + 1;
        }
      } else {
        objectList := objectList + [entry];
      }
    }

    /** Getter of `this[int]`: the element of an array, or the value of the
        entry at that position of an object. */
    function GetItem(index: int): (r: Result<JsonData?, JsonError>)
      requires Valid()
      reads this
      ensures !IsCollection() <==> r == Failure(InvalidOperation)
      ensures IsCollection() ==> (r.Success? <==> 0 <= index < Count().value)
      ensures r.Failure? && IsCollection() ==> r.error == ArgumentOutOfRange
      ensures r.Success? && jsonType == Array ==> r.value == instArray[index]
      ensures r.Success? && jsonType == Object ==>
        objectList[index].key in instObject && r.value == instObject[objectList[index].key]
    {
      if !IsCollection() then Failure(InvalidOperation)
      else if jsonType == Array then
        if 0 <= index < |instArray| then Success(instArray[index]) else Failure(ArgumentOutOfRange)
      else
        if 0 <= index < |objectList| then Success(objectList[index].value) else Failure(ArgumentOutOfRange)
    }

    /** Setter of `this[int]`: replaces an array element, or the value of the
        entry at that position of an object (its key stays); the cached text is
        dropped. */
    method SetItem(index: int, value: JsonData?) returns (r: Outcome<JsonError>)
      requires Valid()
      modifies this
      ensures Valid()
      ensures !old(IsCollection()) ==> r == Fail(InvalidOperation) && unchanged(this)
      ensures old(jsonType) == Array && !(0 <= index < old(|instArray|)) ==>
        r == Fail(ArgumentOutOfRange) && unchanged(this)
      ensures old(jsonType) == Object && !(0 <= index < old(|objectList|)) ==>
        r == Fail(ArgumentOutOfRange) && unchanged(this)
      ensures old(jsonType) == Array && 0 <= index < old(|instArray|) ==>
        && r == Pass && jsonType == Array && json == Option.None
        && instArray == old(instArray)[index := value]
        && instObject == old(instObject) && objectList == old(objectList) && Scalars() == old(Scalars())
      ensures old(jsonType) == Object && 0 <= index < old(|objectList|) ==>
        && r == Pass && jsonType == Object && json == Option.None
        && objectList == SetValueAt(old(objectList), index, value)
        && instObject == old(instObject)[old(objectList)[index].key := value]
        && instArray == old(instArray) && Scalars() == old(Scalars())
      ensures r.Pass? ==> GetItem(index) == Success(value) && Count() == old(Count())
    {
      if !IsCollection() {
        return Fail(InvalidOperation);
      }
      if jsonType == Array {
        if !(0 <= index < |instArray|) {
          return Fail(ArgumentOutOfRange);
        }
        instArray := instArray[index := value];
      } else {
        if !(0 <= index < |objectList|) {
          return Fail(ArgumentOutOfRange);
        }
        SetValueAtKeepsSync(instObject, objectList, index, value);
        var entry := objectList[index];
        objectList := SetValueAt(objectList, index, value);
        instObject := instObject[entry.key := value];
      }
      json := Option.None;
      r := Pass;
    }

    /** `IDictionary.Add`: adds a new property at the end; a property that is
        already there makes it throw, with nothing changed. */
    method DictionaryAdd(key: string, value: JsonData?) returns (r: Outcome<JsonError>)
      requires Valid()
      modifies this
      ensures Valid()
      ensures (!old(IsCollection()) && old(jsonType) != JsonType.None) || old(jsonType) == Array ==>
        r == Fail(InvalidOperation) && unchanged(this)
      ensures old(jsonType) == Object && key in old(instObject) ==>
        r == Fail(DuplicateKey) && unchanged(this)
      ensures (old(jsonType) == JsonType.None || (old(jsonType) == Object && key !in old(instObject))) ==>
        && r == Pass && jsonType == Object && json == Option.None
        && instObject == (if old(jsonType) == Object then old(instObject) else map[])[key := value]
        && objectList == (if old(jsonType) == Object then old(objectList) else []) + [Entry(key, value)]
        && instArray == old(instArray) && Scalars() == old(Scalars())
    {
      var o := EnsureDictionary();
      if o.Fail? {
        return o;
      }
      if key in instObject {
        return Fail(DuplicateKey);
      }
      PutKeepsSync(instObject, objectList, key, value);
      instObject := instObject[key := value];
      objectList := objectList + [Entry(key, value)];
      json := Option.None;
      r := Pass;
    }

    /** `IDictionary.Remove`: removes the property and its entry (a missing
        property is not an error); the cached text is dropped either way. */
    method DictionaryRemove(key: string) returns (r: Outcome<JsonError>)
      requires Valid()
      modifies this
      ensures Valid()
      ensures r.Pass? <==> old(jsonType) == Object || old(jsonType) == JsonType.None
      ensures r.Fail? ==> r.error == InvalidOperation && unchanged(this)
      ensures old(jsonType) == Object ==>
        && jsonType == Object && json == Option.None
        && instObject == old(instObject) - {key}
        && objectList == DropEntry(old(objectList), key)
        && instArray == old(instArray) && Scalars() == old(Scalars())
      ensures old(jsonType) == JsonType.None ==>
        && jsonType == Object && json == Option.None
        && instObject == map[] && objectList == []
        && instArray == old(instArray) && Scalars() == old(Scalars())
    {
      var o := EnsureDictionary();
      if o.Fail? {
        return o;
      }
      DropKeepsSync(instObject, objectList, key);
      instObject := instObject - {key};
      DropFromEntryList(key);
      json := Option.None;
      r := Pass;
    }

    /** The entry-list half of `IDictionary.Remove`: the search loop that
        deletes the first entry of the key, if there is one. */
    method DropFromEntryList(key: string)
      requires DistinctKeys(objectList)
      modifies this`objectList
      ensures objectList == DropEntry(old(objectList), key)
    {
      ghost var l0 := objectList;
      var i := 0;
      while i < |objectList|
        invariant 0 <= i <= |objectList| && objectList == l0
        invariant forall j :: 0 <= j < i ==> objectList[j].key != key
        invariant key in KeySet(l0) ==> i <= IndexOfKey(l0, key)
      {
        if objectList[i].key == key {
          UniqueIndex(objectList, key, i);
          objectList := objectList[..i] + objectList[i + 1..];
          break;
        }
        i := i + 1;
      }
    }

    /** `IDictionary.Clear`: empties the object (making an uninitialised value
        an empty object) and drops the cached text. */
    method DictionaryClear() returns (r: Outcome<JsonError>)
      requires Valid()
      modifies this
      ensures Valid()
      ensures r.Pass? <==> old(jsonType) == Object || old(jsonType) == JsonType.None
      ensures r.Fail? ==> r.error == InvalidOperation && unchanged(this)
      ensures r.Pass? ==>
        && jsonType == Object && instObject == map[] && objectList == [] && json == Option.None
        && instArray == old(instArray) && Scalars() == old(Scalars())
    {
      var o := EnsureDictionary();
      if o.Fail? {
        return o;
      }
      instObject := map[];
      objectList := [];
      json := Option.None;
      r := Pass;
    }

    /** `IList.Clear`: empties the array (making an uninitialised value an
        empty array) and drops the cached text. */
    method ListClear() returns (r: Outcome<JsonError>)
      requires Valid()
      modifies this
      ensures Valid()
      ensures r.Pass? <==> old(jsonType) == Array || old(jsonType) == JsonType.None
      ensures r.Fail? ==> r.error == InvalidOperation && unchanged(this)
      ensures r.Pass? ==>
        && jsonType == Array && instArray == [] && json == Option.None
        && instObject == old(instObject) && objectList == old(objectList)
        && Scalars() == old(Scalars())
    {
      var o := EnsureList();
      if o.Fail? {
        return o;
      }
      instArray := [];
      json := Option.None;
      r := Pass;
    }

    /** `Clear`: empties an object or an array; on any other value it does nothing. */
    method Clear()
      requires Valid()
      modifies this
      ensures Valid() && jsonType == old(jsonType) && Scalars() == old(Scalars())
      ensures !old(IsCollection()) ==> unchanged(this)
      ensures old(jsonType) == Object ==>
        instObject == map[] && objectList == [] && json == Option.None && instArray == old(instArray)
      ensures old(jsonType) == Array ==>
        && instArray == [] && json == Option.None
        && instObject == old(instObject) && objectList == old(objectList)
      ensures old(IsCollection()) ==> Count() == Success(0)
    {
      if jsonType == Object {
        var _ := DictionaryClear();
        return;
      }
      if jsonType == Array {
        var _ := ListClear();
      }
    }

    /** `Add`: appends to an array (making an uninitialised value an array)
        and returns the new element's index. The cached text is dropped before
        the type is checked, so it is dropped even when the call throws. */
    method Add(value: JsonData?) returns (r: Result<nat, JsonError>)
      requires Valid()
      modifies this
      ensures Valid() && json == Option.None
      ensures r.Success? <==> old(jsonType) == Array || old(jsonType) == JsonType.None
      ensures r.Failure? ==> r.error == InvalidOperation && jsonType == old(jsonType) && instArray == old(instArray)
      ensures r.Success? ==>
        && jsonType == Array
        && instArray == (if old(jsonType) == Array then old(instArray) else []) + [value]
        && r.value == |instArray| - 1
        && GetItem(r.value) == Success(value)
      ensures instObject == old(instObject) && objectList == old(objectList) && Scalars() == old(Scalars())
    {
      json := Option.None;
      var o := EnsureList();
      if o.Fail? {
        return Failure(o.error);
      }
      r := Success(|instArray|);
      instArray := instArray + [value];
    }

    // ----- scalar payloads -----

    /** `IJsonWrapper.GetBoolean`. */
    function GetBoolean(): (r: Result<bool, JsonError>)
      reads this
      ensures r.Success? <==> jsonType == Boolean
      ensures r.Failure? ==> r.error == InvalidOperation
      ensures r.Success? ==> r.value == instBoolean
    {
      if jsonType != Boolean then Failure(InvalidOperation) else Success(instBoolean)
    }

    /** `IJsonWrapper.GetDouble`. */
    function GetDouble(): (r: Result<DoubleBits, JsonError>)
      reads this
      ensures r.Success? <==> jsonType == Double
      ensures r.Failure? ==> r.error == InvalidOperation
      ensures r.Success? ==> r.value == instDouble
    {
      if jsonType != Double then Failure(InvalidOperation) else Success(instDouble)
    }

    /** `IJsonWrapper.GetInt`. */
    function GetInt(): (r: Result<int32, JsonError>)
      reads this
      ensures r.Success? <==> jsonType == Int
      ensures r.Failure? ==> r.error == InvalidOperation
      ensures r.Success? ==> r.value == instInt
    {
      if jsonType != Int then Failure(InvalidOperation) else Success(instInt)
    }

    /** `IJsonWrapper.GetLong`. */
    function GetLong(): (r: Result<int64, JsonError>)
      reads this
      ensures r.Success? <==> jsonType == Long
      ensures r.Failure? ==> r.error == InvalidOperation
      ensures r.Success? ==> r.value == instLong
    {
      if jsonType != Long then Failure(InvalidOperation) else Success(instLong)
    }

    /** `IJsonWrapper.GetString`; the string may be null. */
    function GetString(): (r: Result<Option<string>, JsonError>)
      reads this
      ensures r.Success? <==> jsonType == String
      ensures r.Failure? ==> r.error == InvalidOperation
      ensures r.Success? ==> r.value == instString
    {
      if jsonType != String then Failure(InvalidOperation) else Success(instString)
    }

    /** `IJsonWrapper.SetBoolean`: retags the value; the other payloads stay. */
    method SetBoolean(b: bool)
      modifies this
      ensures GetBoolean() == Success(b) && json == Option.None
      ensures Scalars() == old(Scalars()).(0 := b)
      ensures instArray == old(instArray) && instObject == old(instObject) && objectList == old(objectList)
    {
      jsonType := Boolean;
      instBoolean := b;
      json := Option.None;
    }

    /** `IJsonWrapper.SetDouble`. */
    method SetDouble(d: DoubleBits)
      modifies this
      ensures GetDouble() == Success(d) && json == Option.None
      ensures Scalars() == old(Scalars()).(1 := d)
      ensures instArray == old(instArray) && instObject == old(instObject) && objectList == old(objectList)
    {
      jsonType := Double;
      instDouble := d;
      json := Option.None;
    }

    /** `IJsonWrapper.SetInt`. */
    method SetInt(n: int32)
      modifies this
      ensures GetInt() == Success(n) && json == Option.None
      ensures Scalars() == old(Scalars()).(2 := n)
      ensures instArray == old(instArray) && instObject == old(instObject) && objectList == old(objectList)
    {
      jsonType := Int;
      instInt := n;
      json := Option.None;
    }

    /** `IJsonWrapper.SetLong`. */
    method SetLong(n: int64)
      modifies this
      ensures GetLong() == Success(n) && json == Option.None
      ensures Scalars() == old(Scalars()).(3 := n)
      ensures instArray == old(instArray) && instObject == old(instObject) && objectList == old(objectList)
    {
      jsonType := Long;
      instLong := n;
      json := Option.None;
    }

    /** `IJsonWrapper.SetString`. */
    method SetString(s: Option<string>)
      modifies this
      ensures GetString() == Success(s) && json == Option.None
      ensures Scalars() == old(Scalars()).(4 := s)
      ensures instArray == old(instArray) && instObject == old(instObject) && objectList == old(objectList)
    {
      jsonType := String;
      instString := s;
      json := Option.None;
    }

    /** `SetJsonType`: retags the value and resets the payload of the new
        kind to an empty collection or the .NET default; the other payloads
        and the cached text are left as they are. Retagging to the current
        type does nothing. */
    method SetJsonType(t: JsonType)
      requires Valid()
      modifies this
      ensures Valid() && jsonType == t && json == old(json)
      ensures old(jsonType) == t ==> unchanged(this)
      ensures old(jsonType) != t ==>
        && instObject == (if t == Object then map[] else old(instObject))
        && objectList == (if t == Object then [] else old(objectList))
        && instArray == (if t == Array then [] else old(instArray))
        && instString == (if t == String then Option.None else old(instString))
        && instInt == (if t == Int then 0 else old(instInt))
        && instLong == (if t == Long then 0 else old(instLong))
        && instDouble == (if t == Double then 0 else old(instDouble))
        && instBoolean == (if t == Boolean then false else old(instBoolean))
      ensures old(jsonType) != t && IsCollection() ==> Count() == Success(0)
    {
      if jsonType == t {
        return;
      }
      match t {
        case None =>
        case Object =>
          instObject := map[];
          objectList := [];
        case Array =>
          instArray := [];
        case String =>
          instString := Option.None;
        case Int =>
          instInt := 0;
        case Long =>
          instLong := 0;
        case Double =>
          instDouble := 0;
        case Boolean =>
          instBoolean := false;
      }
      jsonType := t;
    }

    // ----- comparison, text -----

    /** `Equals(JsonData)`: values of different types are unequal; an object
        or an array equals only itself, since its dictionary or list is never
        shared with another instance; a null string payload makes the call throw. */
    function Equals(x: JsonData?): (r: Result<bool, JsonError>)
      reads this, x
      ensures r == Success(true) ==> x != null && x.jsonType == jsonType
      ensures r.Failure? <==> x != null && x.jsonType == jsonType == String && instString.None?
      ensures r.Failure? ==> r.error == NullReference
      ensures x != null && x.jsonType == jsonType && (jsonType == Object || jsonType == Array) ==>
        r == Success(x == this)
      ensures x != null && x.jsonType == jsonType == Int ==> r == Success(x.instInt == instInt)
      ensures x != null && x.jsonType == jsonType == Long ==> r == Success(x.instLong == instLong)
      ensures x != null && x.jsonType == jsonType == Boolean ==> r == Success(x.instBoolean == instBoolean)
      ensures x != null && x.jsonType == jsonType == Double ==> r == Success(DoubleEquals(instDouble, x.instDouble))
      ensures x != null && x.jsonType == jsonType == String && instString.Some? ==> r == Success(instString == x.instString)
      ensures x != null && x.jsonType == jsonType == JsonType.None ==> r == Success(true)
      ensures x == null || x.jsonType != jsonType ==> r == Success(false)
      ensures x == this ==> r == Success(true) || r == Failure(NullReference)
    {
      if x == null then Success(false)
      else if x.jsonType != jsonType then Success(false)
      else match jsonType
        case None => Success(true)
        case Object => Success(x == this)
        case Array => Success(x == this)
        case String => if instString.None? then Failure(NullReference) else Success(instString == x.instString)
        case Int => Success(instInt == x.instInt)
        case Long => Success(instLong == x.instLong)
        case Double => Success(DoubleEquals(instDouble, x.instDouble))
        case Boolean => Success(instBoolean == x.instBoolean)
    }

    /** `ToString`: a fixed text for collections and uninitialised values, the
        payload's text otherwise (a null string stays null). */
    function ToString(): (r: Rendering)
      reads this
      ensures jsonType == Int ==> r.Text? && JsonText.ParseDecimal(r.text) == Some(instInt as int)
      ensures jsonType == Long ==> r.Text? && JsonText.ParseDecimal(r.text) == Some(instLong as int)
      ensures jsonType == String ==> (r == NullText <==> instString.None?)
      ensures jsonType == String && instString.Some? ==> r == Text(instString.value)
      ensures jsonType == Double ==> r == DoubleText(instDouble)
    {
      JsonText.DecimalRoundTrip(instInt as int);
      JsonText.DecimalRoundTrip(instLong as int);
      match jsonType
      case Array => Text("JsonData array")
      case Boolean => Text(if instBoolean then "True" else "False")
      case Double => DoubleText(instDouble)
      case Int => Text(JsonText.Decimal(instInt as int))
      case Long => Text(JsonText.Decimal(instLong as int))
      case Object => Text("JsonData object")
      case String => if instString.None? then NullText else Text(instString.value)
      case None => Text("Uninitialized JsonData")
    }

    /** `ToJson()`: the cached text if there is one; otherwise the writer's
        output (`rendered`), which is then cached. */
    method ToJson(rendered: string) returns (text: string)
      modifies this`json
      ensures old(json).Some? ==> text == old(json).value && json == old(json)
      ensures old(json).None? ==> text == rendered && json == Some(rendered)
      ensures json == Some(text)
    {
      if json.Some? {
        return json.value;
      }
      json := Some(rendered);
      text := rendered;
    }
  }

  // ----- explicit conversions -----

  /** `(bool)data`. */
  function ToBoolean(data: JsonData?): (r: Result<bool, JsonError>)
    reads data
    ensures data == null <==> r == Failure(NullReference)
    ensures data != null ==> (r.Success? <==> data.GetBoolean().Success?)
    ensures r.Success? ==> data != null && r == data.GetBoolean()
    ensures data != null && r.Failure? ==> r.error == InvalidCast
  {
    if data == null then Failure(NullReference)
    else if data.jsonType != Boolean then Failure(InvalidCast)
    else Success(data.instBoolean)
  }

  /** `(double)data`. */
  function ToDouble(data: JsonData?): (r: Result<DoubleBits, JsonError>)
    reads data
    ensures data == null <==> r == Failure(NullReference)
    ensures data != null ==> (r.Success? <==> data.GetDouble().Success?)
    ensures r.Success? ==> data != null && r == data.GetDouble()
    ensures data != null && r.Failure? ==> r.error == InvalidCast
  {
    if data == null then Failure(NullReference)
    else if data.jsonType != Double then Failure(InvalidCast)
    else Success(data.instDouble)
  }

  /** `(int)data`. */
  function ToInt(data: JsonData?): (r: Result<int32, JsonError>)
    reads data
    ensures data == null <==> r == Failure(NullReference)
    ensures data != null ==> (r.Success? <==> data.GetInt().Success?)
    ensures r.Success? ==> data != null && r == data.GetInt()
    ensures data != null && r.Failure? ==> r.error == InvalidCast
  {
    if data == null then Failure(NullReference)
    else if data.jsonType != Int then Failure(InvalidCast)
    else Success(data.instInt)
  }

  /** `(long)data`. */
  function ToLong(data: JsonData?): (r: Result<int64, JsonError>)
    reads data
    ensures data == null <==> r == Failure(NullReference)
    ensures data != null ==> (r.Success? <==> data.GetLong().Success?)
    ensures r.Success? ==> data != null && r == data.GetLong()
    ensures data != null && r.Failure? ==> r.error == InvalidCast
  {
    if data == null then Failure(NullReference)
    else if data.jsonType != Long then Failure(InvalidCast)
    else Success(data.instLong)
  }

  /** `(string)data`; the payload may be a null string. */
  function ToText(data: JsonData?): (r: Result<Option<string>, JsonError>)
    reads data
    ensures data == null <==> r == Failure(NullReference)
    ensures data != null ==> (r.Success? <==> data.GetString().Success?)
    ensures r.Success? ==> data != null && r == data.GetString()
    ensures data != null && r.Failure? ==> r.error == InvalidCast
  {
    if data == null then Failure(NullReference)
    else if data.jsonType != String then Failure(InvalidCast)
    else Success(data.instString)
  }
}
