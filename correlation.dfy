/**
 * The token correlation file (`hash_mapping.json`): token -> {email, campaign,
 * created_at}. `register_hash` loads it, sets one entry and saves it back;
 * `get_hash_info` answers the email and campaign of a token.
 */
module Correlation {
  import opened Wrappers

  /** What the file stores for a token; the campaign is `None` for a one-off send. */
  datatype HashEntry = HashEntry(email: string, campaign: Option<string>, createdAt: string)

  /** What `get_hash_info` answers: both fields `None` for an unknown token. */
  datatype HashInfo = HashInfo(email: Option<string>, campaign: Option<string>)

  const UnknownToken := HashInfo(None, None)

  /** Python's `not hash_id` for an optional string: `None` or "". */
  predicate Falsy(hashId: Option<string>) {
    hashId == None || hashId == Some("")
  }

  class HashMapFile {
    var mapping: map<string, HashEntry>

    /** The file does not exist yet: `load_hash_map` reads it as empty. */
    constructor ()
      ensures mapping == map[]
    {
      mapping := map[];
    }

    /**
     * `get_hash_info`: the email and campaign registered for the token; the
     * `None` pair when the token is missing, empty or unknown. Reads only.
     */
    function GetHashInfo(hashId: Option<string>): (info: HashInfo)
      reads this
      ensures Falsy(hashId) || hashId.value !in mapping ==> info == UnknownToken
      ensures info.email.Some? ==> !Falsy(hashId) && hashId.value in mapping
    {
      if Falsy(hashId) then UnknownToken
      else if hashId.value in mapping then
        var entry := mapping[hashId.value];
        HashInfo(Some(entry.email), entry.campaign)
      else UnknownToken
    }

    /**
     * `register_hash`: stores {email, campaign, created_at} under the token,
     * replacing any earlier entry for it (there is no duplicate check). Afterwards
     * a lookup of the token answers this email and campaign, and every other
     * lookup answers what it answered before.
     */
    method RegisterHash(hashId: string, email: string, campaign: Option<string>, now: string)
      modifies this
      ensures mapping == old(mapping)[hashId := HashEntry(email, campaign, now)]
      ensures hashId != "" ==> GetHashInfo(Some(hashId)) == HashInfo(Some(email), campaign)
      ensures forall h: string :: h != hashId ==> GetHashInfo(Some(h)) == old(GetHashInfo(Some(h)))
    {
      var loaded := mapping;
      loaded := loaded[hashId := HashEntry(email, campaign, now)];
      mapping := loaded;
    }
  }
}
