/**
 * FRAMEBUFFER_CODEC: the string form of framebuffer names. A bare name (no
 * ':') lives in the `temp` namespace; a `temp` name is written back bare and
 * every other name as `namespace:path`. Both registry variants declare the
 * same codec.
 */
module FramebufferCodec {
  import opened Wrappers
  import opened ResourceLocations

  const TempNamespace: string := "temp"

  /** The error message of a name that is not a valid resource location. */
  function InvalidName(name: string): string {
    "Not a valid resource location: " + name
  }

  /** Some two positions of `s` hold the separator. */
  predicate HasTwoSeparators(s: string) {
    exists i, j :: 0 <= i < j < |s| && s[i] == Separator && s[j] == Separator
  }

  /** Decoding direction of the codec (String -> ResourceLocation). */
  function Decode(name: string): (r: Result<Location, string>)
    ensures r.Success? ==> WellFormed(r.value)
    ensures Separator !in name ==> r == Success(Location(TempNamespace, name))
    ensures r.Failure? <==> HasTwoSeparators(name)
    ensures r.Failure? ==> r.error == InvalidName(name)
    ensures Separator in name && r.Success? ==>
      var i := IndexOf(name, Separator);
      r.value == Location(if i == 0 then DefaultNamespace else name[..i], name[i + 1..])
  {
    var parsed := if Separator !in name then Make(TempNamespace, name) else Parse(name);
    match parsed
    case Some(loc) => Success(loc)
    case None =>
      SecondSeparator(name);
      Failure(InvalidName(name))
  }

  /**
   * The two spellings of a bare path decode to different namespaces: with no
   * separator the name lives in `temp`, with a leading one in the default
   * namespace.
   */
  lemma BareAndLeadingSeparator(path: string)
    requires Separator !in path
    ensures Decode(path) == Success(Location(TempNamespace, path))
    ensures Decode([Separator] + path) == Success(Location(DefaultNamespace, path))
  {
    assert ([Separator] + path)[1..] == path;
  }

  /** Encoding direction of the codec (ResourceLocation -> String). */
  function Encode(loc: Location): (s: string)
    ensures WellFormed(loc) ==> (Separator in s <==> loc.namespace != TempNamespace)
  {
    if loc.namespace == TempNamespace then loc.path else ToString(loc)
  }

  /** A name with a separator fails to decode exactly when the part after its first separator holds another one. */
  lemma SecondSeparator(name: string)
    ensures Separator in name ==>
      (HasTwoSeparators(name) <==> Separator in name[IndexOf(name, Separator) + 1..])
  {
    if Separator in name {
      var k := IndexOf(name, Separator);
      if HasTwoSeparators(name) {
        var i, j :| 0 <= i < j < |name| && name[i] == Separator && name[j] == Separator;
        assert name[k + 1..][j - k - 1] == Separator;
      }
      if Separator in name[k + 1..] {
        var j :| 0 <= j < |name[k + 1..]| && name[k + 1..][j] == Separator;
        assert name[k] == Separator && name[k + 1 + j] == Separator;
      }
    }
  }

  /** The first separator of `ns + ":" + rest` is the one after `ns` when `ns` has none. */
  lemma {:induction false} IndexOfAfterPrefix(ns: string, rest: string)
    requires Separator !in ns
    ensures IndexOf(ns + [Separator] + rest, Separator) == |ns|
  {
    if ns != [] {
      assert (ns + [Separator] + rest)[1..] == ns[1..] + [Separator] + rest;
      IndexOfAfterPrefix(ns[1..], rest);
    }
  }

  /** Round trip: every constructed location survives encoding and decoding. */
  lemma DecodeEncode(loc: Location)
    requires WellFormed(loc)
    ensures Decode(Encode(loc)) == Success(loc)
  {
    if loc.namespace != TempNamespace {
      var s := Encode(loc);
      IndexOfAfterPrefix(loc.namespace, loc.path);
      assert s[..|loc.namespace|] == loc.namespace;
      assert s[|loc.namespace| + 1..] == loc.path;
    }
  }

  /**
   * A decoded name is already in its written form unless it spelled out the
   * `temp` namespace or left the namespace empty; either way, re-decoding
   * the written form gives the same location.
   */
  predicate Canonical(name: string) {
    Separator !in name ||
    (var i := IndexOf(name, Separator); i > 0 && name[..i] != TempNamespace)
  }

  lemma EncodeDecode(name: string)
    requires Decode(name).Success?
    ensures Decode(Encode(Decode(name).value)) == Decode(name)
    ensures Encode(Decode(name).value) == name <==> Canonical(name)
  {
    var loc := Decode(name).value;
    DecodeEncode(loc);
    if Separator in name {
      var i := IndexOf(name, Separator);
      assert name == name[..i] + [Separator] + name[i + 1..];
      if i == 0 {
        assert Encode(loc)[0] == 'm';
      } else if name[..i] == TempNamespace {
        assert |Encode(loc)| < |name|;
      }
    }
  }
}
