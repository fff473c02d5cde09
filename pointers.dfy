/** go-pointers/go-pointers.go: a Go map is a reference, so `testPointer`
    changes the caller's map. The map is an object whose `entries` the
    methods reassign; `RunDemo` is `main` without the printing. */
module Pointers {

  /** A Go `map[string]string` value, shared by whoever holds it. */
  class StringMap {
    var entries: map<string, string>

    /** `make(map[string]string)`. */
    constructor ()
      ensures entries == map[]
    {
      entries := map[];
    }

    /** `m[key] = value`. */
    method Put(key: string, value: string)
      modifies this
      ensures entries == old(entries)[key := value]
    {
      entries := entries[key := value];
    }
  }

  /** `testPointer`: sets "test2" and "test3" to "new value" in the map it
      is given, and touches no other key. */
  method TestPointer(a: StringMap)
    modifies a
    ensures a.entries == old(a.entries)["test2" := "new value"]["test3" := "new value"]
    ensures "test2" in a.entries && a.entries["test2"] == "new value"
    ensures "test3" in a.entries && a.entries["test3"] == "new value"
    ensures a.entries.Keys == old(a.entries.Keys) + {"test2", "test3"}
    ensures forall k :: k in old(a.entries) && k != "test2" && k != "test3" ==> a.entries[k] == old(a.entries[k])
  {
    a.Put("test2", "new value");
    a.Put("test3", "new value");
  }

  /** `main`: the caller's map ends with its own "test" entry and the two
      entries `testPointer` added, three keys in all. */
  method RunDemo() returns (final: map<string, string>)
    ensures final == map["test" := "value", "test2" := "new value", "test3" := "new value"]
    ensures final.Keys == {"test", "test2", "test3"} && |final| == 3
  {
    var a := new StringMap();
    a.Put("test", "value");
    TestPointer(a);
    final := a.entries;
  }
}
