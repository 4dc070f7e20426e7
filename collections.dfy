/** `Dictionary<string, string>` with the three members the feature
    classes call: `Add`, the indexer setter and `TryGetValue`. Keys are
    compared ordinally, as the default comparer does. */
module Collections {
  import opened Runtime

  const DuplicateKeyMessage := "An item with the same key has already been added."

  class Dictionary {
    var entries: map<string, string>

    constructor()
      ensures entries == map[]
    {
      entries := map[];
    }

    /** `Add`: inserts a new key; a key that is already present makes it
        throw and leaves the dictionary as it was. */
    method Add(key: string, value: string) returns (o: Outcome)
      modifies this
      ensures o.Fail? <==> key in old(entries)
      ensures o.Fail? ==> o.exception == ArgumentException(DuplicateKeyMessage) && entries == old(entries)
      ensures o.Ok? ==> entries == old(entries)[key := value]
    {
      if key in entries {
        o := Fail(ArgumentException(DuplicateKeyMessage));
      } else {
        entries := entries[key := value];
        o := Ok;
      }
    }

    /** The indexer setter `this[key] = value`: inserts or overwrites. */
    method SetItem(key: string, value: string)
      modifies this
      ensures entries == old(entries)[key := value]
    {
      entries := entries[key := value];
    }

    /** `TryGetValue(key, out value)`: reports whether the key is present;
        the out value is the stored one, or null (`default(string)`). */
    method TryGetValue(key: string) returns (found: bool, value: Option<string>)
      ensures found <==> key in entries
      ensures found ==> value == Some(entries[key])
      ensures !found ==> value == None
    {
      if key in entries {
        found, value := true, Some(entries[key]);
      } else {
        found, value := false, None;
      }
    }
  }
}
