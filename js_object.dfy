/** Plain JavaScript objects used as dictionaries (`{}`, `obj[k] = v`,
    `Object.keys(obj)`). Only own data properties are modelled: the keys the
    pivot table stores never name a property of Object.prototype (see
    Grouping.KeptKeyIsNotInherited), so an own-property lookup is what
    `obj[k]` does on them. */
module JsObjects {
  import opened Seqs
  import opened PropertyKeys

  /** An object's own properties and the order in which they were created. */
  datatype Obj<V> = Obj(props: map<string, V>, created: seq<string>) {

    /** Every property was created once, and every created key is a property. */
    ghost predicate Valid() {
      (forall k :: k in props <==> k in created) && Distinct(created)
    }

    /** `Object.keys(obj)`: each own key once, in OrdinaryOwnPropertyKeys order. */
    function Keys(): (ks: seq<string>)
      ensures Valid() ==> (forall k :: k in ks <==> k in props) && Distinct(ks)
    {
      OwnKeysPermutes(created);
      assert forall k :: k in OwnKeys(created) <==> k in multiset(created);
      OwnKeys(created)
    }

    /** `obj[k] = v`: overwrites an existing property in place, or creates a
        new one after all the others. */
    function Set(k: string, v: V): (o: Obj<V>)
      ensures Valid() ==> o.Valid()
      ensures k in o.props && o.props[k] == v
      ensures forall j :: j != k ==> (j in o.props <==> j in props)
      ensures forall j :: j != k && j in props ==> o.props[j] == props[j]
      ensures o.created == if k in props then created else created + [k]
    {
      Obj(props[k := v], if k in props then created else created + [k])
    }
  }

  /** The object literal `{}`. */
  function EmptyObj<V>(): (o: Obj<V>)
    ensures o.Valid() && o.Keys() == []
  {
    Obj(map[], [])
  }

  /** A dictionary object that the program fills in place. */
  class JsObject<V> {
    var props: map<string, V>
    var created: seq<string>

    function Value(): Obj<V>
      reads this
    {
      Obj(props, created)
    }

    ghost predicate Valid()
      reads this
    {
      Value().Valid()
    }

    /** `{}` */
    constructor ()
      ensures Valid() && Value() == EmptyObj()
    {
      props := map[];
      created := [];
    }

    /** `obj[k] = v` */
    method Put(k: string, v: V)
      requires Valid()
      modifies this
      ensures Valid()
      ensures Value() == old(Value()).Set(k, v)
    {
      if k !in props {
        created := created + [k];
      }
      props := props[k := v];
    }
  }
}
