/** JSON as the conversions use it: a pair of functions of which decoding undoes encoding. */
module Encoding {
  import opened Text

  datatype Codec<!T> = Codec(encode: T -> string, decode: string -> Option<T>)

  ghost predicate Faithful<T(!new)>(c: Codec<T>) {
    forall x :: c.decode(c.encode(x)) == Some(x)
  }

  type Keys = map<string, string>

  /** The object metadata both versions share; a nil annotation map is an empty one. */
  datatype Meta = Meta(namespace: string, name: string, uid: string, labels: Keys, annotations: Keys)
}
