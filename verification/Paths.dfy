/** Workspace-relative paths (src/ulg/workspace/paths.py). */
module Paths {
  import opened Wrappers

  datatype PathError = EmptyOrNul | NotRelative

  /** A component that survives normalisation and names something below the root. */
  predicate ValidPart(part: string) {
    part != "" && part != "." && part != ".." && '/' !in part && '\0' !in part
  }

  function SegmentLength(s: string): (n: nat)
    ensures n <= |s|
    ensures '/' !in s[..n]
    ensures n < |s| ==> s[n] == '/'
  {
    if s == "" || s[0] == '/' then 0 else
      var m := SegmentLength(s[1..]);
      assert s[..m + 1] == [s[0]] + s[1..][..m];
      m + 1
  }

  function Keep(segment: string): seq<string> {
    if segment == "" || segment == "." then [] else [segment]
  }

  /** The components of a relative path: repeated slashes and "." disappear. */
  function Components(s: string): seq<string>
    decreases |s|
  {
    if s == "" then [] else
      var n := SegmentLength(s);
      Keep(s[..n]) + if n == |s| then [] else Components(s[n + 1..])
  }

  function JoinSlash(parts: seq<string>): string {
    if parts == [] then "" else
    if |parts| == 1 then parts[0] else parts[0] + "/" + JoinSlash(parts[1..])
  }

  /** `relative_parts` */
  function RelativeParts(path: string): Result<seq<string>, PathError> {
    if path == "" || '\0' in path then Failure(EmptyOrNul)
    else if path[0] == '/' || ".." in Components(path) then Failure(NotRelative)
    else Success(Components(path))
  }

  /** A path that already is the slash-joined form of its own parts. */
  predicate CanonicalPath(path: string) {
    && RelativeParts(path).Success?
    && Components(path) != []
    && JoinSlash(Components(path)) == path
  }

  lemma {:induction false} ComponentsAreValid(s: string)
    requires '\0' !in s
    ensures forall part :: part in Components(s) ==> part == ".." || ValidPart(part)
    decreases |s|
  {
    if s != "" {
      var n := SegmentLength(s);
      assert forall c :: c in s[..n] ==> c in s;
      if n < |s| {
        assert forall c :: c in s[n + 1..] ==> c in s;
        ComponentsAreValid(s[n + 1..]);
      }
    }
  }

  lemma SegmentLengthOf(part: string, rest: string)
    requires '/' !in part
    requires rest == "" || rest[0] == '/'
    ensures SegmentLength(part + rest) == |part|
  {
    var s := part + rest;
    var n := SegmentLength(s);
    assert forall i :: 0 <= i < |part| ==> s[i] == part[i];
    assert forall i :: 0 <= i < n ==> s[i] == s[..n][i];
    assert rest != "" ==> s[|part|] == rest[0];
  }

  lemma ComponentsCons(part: string, tail: string)
    requires ValidPart(part)
    ensures Components(part) == [part]
    ensures Components(part + "/" + tail) == [part] + Components(tail)
  {
    SegmentLengthOf(part, "");
    assert part + "" == part && part[..|part|] == part;
    SegmentLengthOf(part, "/" + tail);
    var s := part + "/" + tail;
    assert s == part + ("/" + tail);
    assert s[..|part|] == part && s[|part| + 1..] == tail;
  }

  lemma {:induction false} ComponentsOfJoin(parts: seq<string>)
    requires forall part :: part in parts ==> ValidPart(part)
    ensures Components(JoinSlash(parts)) == parts
    ensures '\0' !in JoinSlash(parts)
    ensures parts != [] ==> JoinSlash(parts) != "" && JoinSlash(parts)[0] != '/'
  {
    if parts != [] {
      assert ValidPart(parts[0]);
      assert parts == [parts[0]] + parts[1..];
      ComponentsOfJoin(parts[1..]);
      ComponentsCons(parts[0], JoinSlash(parts[1..]));
    }
  }

  /** Normalising a path yields a canonical path: normalisation is idempotent. */
  lemma NormalisedIsCanonical(path: string)
    requires RelativeParts(path).Success? && RelativeParts(path).value != []
    ensures CanonicalPath(JoinSlash(RelativeParts(path).value))
    ensures RelativeParts(JoinSlash(RelativeParts(path).value)) == RelativeParts(path)
  {
    ComponentsAreValid(path);
    ComponentsOfJoin(Components(path));
  }
}
