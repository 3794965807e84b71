/** The app's local key-value store and the string codecs of its two lists.
    The store is an abstract map from key to stored string; the codecs are
    given, uninterpreted, as a record of four functions. */
module Storage {
  import opened Domain

  type Key = string

  /** The key under which the encoded raffle list is stored (the string
      resource `raffle_name_key`). */
  const RaffleNameKey: Key := "raffle_name_key"

  /** The key under which the encoded participant list is stored (the string
      resource `participant_key`). */
  const ParticipantKey: Key := "participant_key"

  /** The contents of the store: a key that was never written is absent. */
  type Store = map<Key, string>

  datatype Option<T> = None | Some(value: T)

  /** `Repository.readString`: the stored string, or nothing when the key is absent. */
  function Read(store: Store, key: Key): (r: Option<string>)
    ensures r == None <==> key !in store
    ensures r.Some? ==> r.value == store[key]
  {
    if key in store then Some(store[key]) else None
  }

  /** `Raffle.fromObjects` / `Raffle.toObjects` and `Participant.fromObjects` /
      `Participant.toObjects`: encode a list to a string and decode it back.
      Nothing is assumed about them. */
  datatype Codec = Codec(
    encodeRaffles: seq<Raffle> -> string,
    decodeRaffles: string -> seq<Raffle>,
    encodeParticipants: seq<Participant> -> string,
    decodeParticipants: string -> seq<Participant>)

  /** `readString(key).map(decode).getOrElse { ArrayList() }`: the decoded
      list stored under `key`, or the empty list when the key is absent. */
  function Load<T>(store: Store, key: Key, decode: string -> seq<T>): (r: seq<T>)
    ensures key !in store ==> r == []
    ensures key in store ==> r == decode(store[key])
  {
    match Read(store, key)
    case Some(data) => decode(data)
    case None => []
  }

  /** The raffle codec decodes whatever it encoded. */
  ghost predicate RaffleCodecRoundTrips(codec: Codec)
  {
    forall rs :: codec.decodeRaffles(codec.encodeRaffles(rs)) == rs
  }

  /** The participant codec decodes whatever it encoded. */
  ghost predicate ParticipantCodecRoundTrips(codec: Codec)
  {
    forall ps :: codec.decodeParticipants(codec.encodeParticipants(ps)) == ps
  }

  /** Reading back a key yields what was last written under it, and writing
      one key leaves every other key's list as it was. */
  lemma LoadAfterWrite<T>(store: Store, written: Key, value: string, key: Key, decode: string -> seq<T>)
    ensures Load(store[written := value], key, decode) ==
            if key == written then decode(value) else Load(store, key, decode)
  {
  }
}
