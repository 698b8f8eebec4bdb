/** The Beacon string: a version prefix and the base64url of an opaque payload. */
module Beacon {
  import opened Wrappers
  import Base64Url

  const PREFIX := "orbit-v1-"

  /** The payload codec of a ticket. It need only undo itself; it may accept other bytes too. */
  datatype Codec<!T> = Codec(toBytes: T -> seq<Byte>, fromBytes: seq<Byte> -> Option<T>)

  ghost predicate UndoesItself<T(!new)>(codec: Codec<T>) {
    forall ticket: T :: codec.fromBytes(codec.toBytes(ticket)) == Some(ticket)
  }

  datatype Error = MissingPrefix | BadBase64 | BadPayload

  function Serialize<T>(codec: Codec<T>, ticket: T): string {
    PREFIX + Base64Url.Encode(codec.toBytes(ticket))
  }

  function Deserialize<T>(codec: Codec<T>, s: string): Result<T, Error> {
    if !(PREFIX <= s) then Failure(MissingPrefix)
    else match Base64Url.Decode(s[|PREFIX|..])
      case None => Failure(BadBase64)
      case Some(payload) =>
        match codec.fromBytes(payload)
        case None => Failure(BadPayload)
        case Some(ticket) => Success(ticket)
  }

  lemma RoundTrip<T(!new)>(codec: Codec<T>, ticket: T)
    requires UndoesItself(codec)
    ensures Deserialize(codec, Serialize(codec, ticket)) == Success(ticket)
  {
    var s := Serialize(codec, ticket);
    assert s[|PREFIX|..] == Base64Url.Encode(codec.toBytes(ticket));
    Base64Url.Base64UrlIsExact(s[|PREFIX|..], codec.toBytes(ticket));
  }

  /** Exactly which strings are read as which ticket, and exactly which error the others give. */
  lemma DeserializeIsExact<T(!new)>(codec: Codec<T>, s: string, ticket: T)
    ensures Deserialize(codec, s) == Success(ticket) <==>
              exists payload :: s == PREFIX + Base64Url.Encode(payload) && codec.fromBytes(payload) == Some(ticket)
    ensures Deserialize(codec, s) == Failure(BadBase64) <==>
              PREFIX <= s && !Base64Url.Canonical(s[|PREFIX|..])
    ensures Deserialize(codec, s) == Failure(BadPayload) <==>
              exists payload :: s == PREFIX + Base64Url.Encode(payload) && codec.fromBytes(payload) == None
  {
    forall payload
      ensures s == PREFIX + Base64Url.Encode(payload) <==>
                PREFIX <= s && Base64Url.Decode(s[|PREFIX|..]) == Some(payload)
    {
      if s == PREFIX + Base64Url.Encode(payload) {
        assert s[|PREFIX|..] == Base64Url.Encode(payload);
      }
      if PREFIX <= s {
        assert s == PREFIX + s[|PREFIX|..];
        Base64Url.Base64UrlIsExact(s[|PREFIX|..], payload);
      }
    }
    if PREFIX <= s {
      Base64Url.Base64UrlIsExact(s[|PREFIX|..], []);
      if Base64Url.Decode(s[|PREFIX|..]).Some? {
        var payload := Base64Url.Decode(s[|PREFIX|..]).value;
        assert s == PREFIX + Base64Url.Encode(payload);
      }
    }
  }
}
