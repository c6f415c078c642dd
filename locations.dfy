/**
 * Namespaced identifiers (Minecraft's ResourceLocation), reduced to what the
 * framebuffer registry and its codec rely on: a namespace and a path joined
 * by ':', where neither part may itself hold the separator.
 */
module ResourceLocations {
  import opened Wrappers

  const Separator: char := ':'
  const DefaultNamespace: string := "minecraft"

  datatype Location = Location(namespace: string, path: string)

  /** What a constructed location always satisfies. */
  predicate WellFormed(loc: Location) {
    loc.namespace != "" && Separator !in loc.namespace && Separator !in loc.path
  }

  /** `namespace:path`, the form ResourceLocation.toString produces. */
  function ToString(loc: Location): (s: string)
    ensures |s| == |loc.namespace| + 1 + |loc.path|
  {
    loc.namespace + [Separator] + loc.path
  }

  /** The index of the first `c` in `s`, or -1 (String.indexOf). */
  function IndexOf(s: string, c: char): (i: int)
    ensures -1 <= i < |s|
    ensures i == -1 <==> c !in s
    ensures 0 <= i ==> s[i] == c && c !in s[..i]
  {
    if s == [] then -1
    else if s[0] == c then 0
    else
      var j := IndexOf(s[1..], c);
      if j == -1 then -1 else j + 1
  }

  /**
   * `new ResourceLocation(namespace, path)`: an empty namespace stands for the
   * default one; a part holding the separator is refused (None models the
   * ResourceLocationException).
   */
  function Make(namespace: string, path: string): (r: Option<Location>)
    ensures r.Some? ==> WellFormed(r.value) && r.value.path == path
    ensures r.Some? <==> Separator !in namespace && Separator !in path
    ensures r.Some? ==> r.value.namespace == (if namespace == "" then DefaultNamespace else namespace)
  {
    var ns := if namespace == "" then DefaultNamespace else namespace;
    if Separator in ns || Separator in path then None else Some(Location(ns, path))
  }

  /**
   * `new ResourceLocation(location)`: split at the first separator; with no
   * separator, or nothing before it, the namespace is the default one.
   */
  function Parse(location: string): (r: Option<Location>)
    ensures r.Some? ==> WellFormed(r.value)
    ensures Separator !in location ==> r == Some(Location(DefaultNamespace, location))
    ensures Separator in location ==>
      var i := IndexOf(location, Separator);
      && (r.Some? <==> Separator !in location[i + 1..])
      && (r.Some? ==> r.value.path == location[i + 1..] &&
                      r.value.namespace == (if i == 0 then DefaultNamespace else location[..i]))
  {
    var i := IndexOf(location, Separator);
    if i < 0 then Make(DefaultNamespace, location)
    else Make(if i >= 1 then location[..i] else DefaultNamespace, location[i + 1..])
  }
}
