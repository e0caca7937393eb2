/**
 * The Rest.li content-type registry: a process-wide map from a lower-cased
 * Content-Type header key to a content type (a header key and the codec that
 * serialises bodies of that type).
 *
 * MIME parsing is an external capability: `parse` maps a header value to its
 * base type (`primary/sub`), or to `None` when the value cannot be parsed.
 */
module ContentTypes {
  import opened Strings
  import opened Wrappers

  /** The outcome of a call that may throw `MimeTypeParseException`. */
  datatype ParseResult<T> = Parsed(value: T) | MimeTypeParseException

  /** The codecs a content type can carry; custom codecs are told apart by a name. */
  datatype Codec = JacksonDataCodec | PsonDataCodec | CustomCodec(name: string)

  /** A content type: the header key as it was given, and its codec. */
  datatype ContentType = ContentType(headerKey: string, codec: Codec)

  const HEADER_VALUE_APPLICATION_PSON: string := "application/x-pson"
  const HEADER_VALUE_APPLICATION_JSON: string := "application/json"
  const HEADER_VALUE_ACCEPT_ANY: string := "*/*"

  const PSON: ContentType := ContentType(HEADER_VALUE_APPLICATION_PSON, PsonDataCodec)
  const JSON: ContentType := ContentType(HEADER_VALUE_APPLICATION_JSON, JacksonDataCodec)
  /** A content type used only as an accept type; it is never registered. */
  const ACCEPT_TYPE_ANY: ContentType := ContentType(HEADER_VALUE_ACCEPT_ANY, JacksonDataCodec)

  /** The registry as the static initialiser leaves it. */
  function InitialSupportedTypes(): (types: map<string, ContentType>)
    ensures types.Keys == {PSON.headerKey, JSON.headerKey}
    ensures types[PSON.headerKey] == PSON && types[JSON.headerKey] == JSON
    ensures ACCEPT_TYPE_ANY.headerKey !in types
  {
    map[PSON.headerKey := PSON, JSON.headerKey := JSON]
  }

  /**
   * `getContentType` against the registry `types`: an absent header means
   * JSON; otherwise the header is parsed and its lower-cased base type looked
   * up, an unregistered type giving an empty Optional.
   */
  function Resolve(types: map<string, ContentType>, header: Option<string>, parse: string -> Option<string>)
    : (r: ParseResult<Option<ContentType>>)
    ensures header.None? ==> r == Parsed(Some(JSON))
    ensures header.Some? ==> (r.MimeTypeParseException? <==> parse(header.value).None?)
    ensures header.Some? && parse(header.value).Some? ==>
      var key := ToLower(parse(header.value).value);
      r.Parsed? && (r.value.Some? <==> key in types) && (key in types ==> r.value.value == types[key])
  {
    match header
    case None => Parsed(Some(JSON))
    case Some(value) =>
      match parse(value)
      case None => MimeTypeParseException
      case Some(baseType) =>
        var key := ToLower(baseType);
        Parsed(if key in types then Some(types[key]) else None)
  }

  /**
   * The static registry. `SUPPORTED_TYPES` is a field the constructor seeds
   * (the static initialiser) and `CreateContentType` extends.
   */
  class Registry {
    var supportedTypes: map<string, ContentType>

    /** The static initialiser: exactly PSON and JSON are registered. */
    constructor ()
      ensures supportedTypes == InitialSupportedTypes()
    {
      supportedTypes := map[PSON.headerKey := PSON, JSON.headerKey := JSON];
    }

    /**
     * `createContentType`: the new type keeps `headerKey` as given, and is
     * registered under its lower-cased form, replacing any earlier entry.
     */
    method CreateContentType(headerKey: string, codec: Codec) returns (customType: ContentType)
      modifies this
      ensures customType.headerKey == headerKey && customType.codec == codec
      ensures supportedTypes == old(supportedTypes)[ToLower(headerKey) := customType]
      ensures forall k :: k in old(supportedTypes) && k != ToLower(headerKey) ==>
                k in supportedTypes && supportedTypes[k] == old(supportedTypes)[k]
    {
      customType := ContentType(headerKey, codec);
      supportedTypes := supportedTypes[ToLower(headerKey) := customType];
    }

    /** `getContentType` against the current registry. */
    function GetContentType(header: Option<string>, parse: string -> Option<string>)
      : (r: ParseResult<Option<ContentType>>)
      reads this
      ensures header.None? ==> r == Parsed(Some(JSON))
    {
      Resolve(supportedTypes, header, parse)
    }
  }

  /**
   * After `createContentType(k, c)`, every header whose base type equals `k`
   * ignoring case resolves to the new type, whatever was registered before.
   */
  lemma RegisteredTypeResolves(types: map<string, ContentType>, headerKey: string, codec: Codec,
                               header: string, parse: string -> Option<string>)
    requires parse(header).Some? && EqualsIgnoreCase(parse(header).value, headerKey)
    ensures Resolve(types[ToLower(headerKey) := ContentType(headerKey, codec)], Some(header), parse)
            == Parsed(Some(ContentType(headerKey, codec)))
  {
  }

  /**
   * Registration under `k` changes the resolution of no header whose
   * base type differs from `k` ignoring case, and of no absent or
   * unparsable header.
   */
  lemma RegistrationLeavesOthers(types: map<string, ContentType>, headerKey: string, codec: Codec,
                                 header: Option<string>, parse: string -> Option<string>)
    requires header.Some? && parse(header.value).Some? ==> !EqualsIgnoreCase(parse(header.value).value, headerKey)
    ensures Resolve(types[ToLower(headerKey) := ContentType(headerKey, codec)], header, parse)
            == Resolve(types, header, parse)
  {
  }

  /** The three header constants are already lower case. */
  lemma HeaderConstantsAreLower()
    ensures ToLower(HEADER_VALUE_APPLICATION_JSON) == HEADER_VALUE_APPLICATION_JSON
    ensures ToLower(HEADER_VALUE_APPLICATION_PSON) == HEADER_VALUE_APPLICATION_PSON
    ensures ToLower(HEADER_VALUE_ACCEPT_ANY) == HEADER_VALUE_ACCEPT_ANY
  {
    assert IsLower(HEADER_VALUE_APPLICATION_JSON);
    ToLowerOfLower(HEADER_VALUE_APPLICATION_JSON);
    assert IsLower(HEADER_VALUE_APPLICATION_PSON);
    ToLowerOfLower(HEADER_VALUE_APPLICATION_PSON);
    assert IsLower(HEADER_VALUE_ACCEPT_ANY);
    ToLowerOfLower(HEADER_VALUE_ACCEPT_ANY);
  }

  /**
   * In the initial registry a header whose base type is a case variant of
   * `application/json` or `application/x-pson` resolves to JSON or PSON, and
   * one whose base type is a case variant of the accept-only type is not
   * supported.
   */
  lemma InitialRegistryResolves(header: string, parse: string -> Option<string>)
    requires parse(header).Some?
    ensures EqualsIgnoreCase(parse(header).value, HEADER_VALUE_APPLICATION_JSON) ==>
              Resolve(InitialSupportedTypes(), Some(header), parse) == Parsed(Some(JSON))
    ensures EqualsIgnoreCase(parse(header).value, HEADER_VALUE_APPLICATION_PSON) ==>
              Resolve(InitialSupportedTypes(), Some(header), parse) == Parsed(Some(PSON))
    ensures EqualsIgnoreCase(parse(header).value, HEADER_VALUE_ACCEPT_ANY) ==>
              Resolve(InitialSupportedTypes(), Some(header), parse) == Parsed(None)
  {
    HeaderConstantsAreLower();
  }

  /** The registry after a series of registrations, applied in order. */
  function RegisterAll(types: map<string, ContentType>, registrations: seq<ContentType>)
    : (r: map<string, ContentType>)
    ensures r.Keys == types.Keys + set c | c in registrations :: ToLower(c.headerKey)
  {
    if registrations == [] then types
    else
      var last := registrations[|registrations| - 1];
      RegisterAll(types, registrations[..|registrations| - 1])[ToLower(last.headerKey) := last]
  }

  /**
   * Last registration wins: after registering `registrations` in order, a
   * header resolves to the last registered type whose key equals its base
   * type ignoring case.
   */
  lemma {:induction false} LastRegistrationWins(types: map<string, ContentType>, registrations: seq<ContentType>,
                                                i: nat, header: string, parse: string -> Option<string>)
    requires i < |registrations| && parse(header).Some?
    requires EqualsIgnoreCase(parse(header).value, registrations[i].headerKey)
    requires forall j :: i < j < |registrations| ==> !EqualsIgnoreCase(registrations[j].headerKey, registrations[i].headerKey)
    ensures Resolve(RegisterAll(types, registrations), Some(header), parse) == Parsed(Some(registrations[i]))
  {
    var n := |registrations|;
    if i == n - 1 {
    } else {
      LastRegistrationWins(types, registrations[..n - 1], i, header, parse);
      assert !EqualsIgnoreCase(registrations[n - 1].headerKey, registrations[i].headerKey);
    }
  }
}
