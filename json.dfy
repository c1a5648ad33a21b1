/**
 * The JSON-like documents that `as_json` builds, and the attribute filter of
 * ActiveModel's `serializable_hash` (the `only:` / `except:` options) that a
 * model's `super(options)` applies before the model adds its own keys.
 */
module Json {
  import opened Wrappers

  /**
   * A rendered value. Timestamps and dates are kept apart from strings so that
   * a raw `created_at` can be told from a humanized one; how they are finally
   * spelled out as text is not part of this model.
   */
  datatype Value =
    | Null
    | Bool(b: bool)
    | Num(n: int)
    | Str(s: string)
    | Time(t: int)
    | Date(day: int)
    | Arr(items: seq<Value>)
    | Obj(fields: Doc)

  /** A hash with string keys, as the document reads once encoded as JSON. */
  type Doc = map<string, Value>

  /** A nullable string column. */
  function StrOrNull(v: Option<string>): (r: Value)
    ensures r == Null <==> v.None?
  {
    match v
    case None => Null
    case Some(s) => Str(s)
  }

  /** A nullable date column. */
  function DateOrNull(v: Option<int>): (r: Value)
    ensures r == Null <==> v.None?
  {
    match v
    case None => Null
    case Some(d) => Date(d)
  }

  /** The options `as_json` passes on to `serializable_hash`. */
  datatype SerializeOptions = SerializeOptions(only: Option<set<string>>, except: set<string>)

  /** `as_json` called with no options. */
  const NoOptions := SerializeOptions(None, {})

  /** `as_json(only: names)` */
  function Only(names: set<string>): SerializeOptions
  {
    SerializeOptions(Some(names), {})
  }

  /**
   * `serializable_hash`: the attribute hash restricted to `only:` when given,
   * otherwise with the `except:` names removed; `except:` is ignored when
   * `only:` is present.
   */
  function SerializableHash(attributes: Doc, opts: SerializeOptions): Doc
  {
    match opts.only
    case Some(names) => map k | k in attributes && k in names :: attributes[k]
    case None => map k | k in attributes && k !in opts.except :: attributes[k]
  }

  /**
   * The serialized hash keeps exactly the allowed attributes, each with its
   * own value.
   */
  lemma SerializableHashShape(attributes: Doc, opts: SerializeOptions)
    ensures opts.only.Some? ==> SerializableHash(attributes, opts).Keys == attributes.Keys * opts.only.value
    ensures opts.only.None? ==> SerializableHash(attributes, opts).Keys == attributes.Keys - opts.except
    ensures forall k :: k in SerializableHash(attributes, opts) ==> SerializableHash(attributes, opts)[k] == attributes[k]
  {
  }

  /**
   * `Hash#merge` / `Hash#merge!`: every key of either hash, the right-hand
   * value winning on a shared key.
   */
  function Merge(base: Doc, extra: Doc): Doc
  {
    base + extra
  }

  /** Every key of either hash, the right-hand value winning on a shared key. */
  lemma MergeShape(base: Doc, extra: Doc)
    ensures Merge(base, extra).Keys == base.Keys + extra.Keys
    ensures forall k :: k in extra ==> Merge(base, extra)[k] == extra[k]
    ensures forall k :: k in base && k !in extra ==> Merge(base, extra)[k] == base[k]
  {
  }

  /** Setting a key after a merge is the same as merging the key in with the rest. */
  lemma MergeThenSet(base: Doc, extra: Doc, k: string, v: Value)
    ensures Merge(base, extra)[k := v] == Merge(base, extra[k := v])
  {
  }

  /** Merging a hash that already holds every pair of `extra` changes nothing. */
  lemma MergeAbsorbed(base: Doc, extra: Doc)
    requires forall k :: k in extra ==> k in base && base[k] == extra[k]
    ensures Merge(base, extra) == base
  {
    var h := Merge(base, extra);
    assert h.Keys == base.Keys;
    forall k | k in h
      ensures h[k] == base[k]
    {
    }
  }
}
