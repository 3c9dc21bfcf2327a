/**
 * `mapToHookFormErrors` as the adapter writes it: a fresh `fieldErrors`
 * object, mutated in place by a recursive inner `mapper` that loops over the
 * keys of each object and grows a path list, and a moving reference that
 * walks (and creates) the containers of each write.
 *
 * Each method is proved against the reference definitions of module
 * HookFormAdapter, whose properties are proved there.
 */
module HookFormMapper {
  import opened Wrappers
  import opened HookFormAdapter

  /** The closure of one `mapToHookFormErrors` call: the `fieldErrors` object
      the inner `mapper` mutates, and the separator taken from `props`. */
  class ErrorMapper {
    var fieldErrors: map<string, Out>
    const joinBy: string

    constructor (joinBy: string)
      ensures this.joinBy == joinBy
      ensures fieldErrors == map[]
    {
      this.joinBy := joinBy;
      fieldErrors := map[];
    }

    /** The body of the `_errors` branch: walk `ref` from `fieldErrors` down
        all but the last key of `paths`, creating empty objects where a key is
        absent (`ref[p] ??= {}`), then set the last key (or "root") to the
        field error. The reference `ref` aliases the nested objects; the model
        keeps the visited containers on a stack and writes the changed ones
        back. Returns false where JavaScript throws: the walk reached a
        string. */
    method SetError(paths: seq<string>, message: string) returns (ok: bool)
      modifies this
      ensures ok <==> Put(old(fieldErrors), TargetPath(paths), FieldError(message)).Some?
      ensures ok ==> Some(fieldErrors) == Put(old(fieldErrors), TargetPath(paths), FieldError(message))
    {
      ghost var target := TargetPath(paths);
      ghost var e := FieldError(message);
      assert target == if paths == [] then [ROOT_KEY] else paths;
      var ref := fieldErrors;
      var stack := [ref];
      var i := 0;
      while i < |paths| - 1
        invariant 0 <= i <= |target| - 1
        invariant |stack| == i + 1 && stack[0] == fieldErrors && stack[i] == ref
        invariant forall k :: 0 <= k < i ==> ChildDict(stack[k], target[k]) == Some(stack[k + 1])
      {
        var p := paths[i];
        var child := ChildDict(ref, p);
        if child.None? {
          PutFailsUpward(stack, target, e, i);
          return false;
        }
        ref := child.value;
        stack := stack + [ref];
        i := i + 1;
      }
      var path := if |paths| > 0 then paths[|paths| - 1] else ROOT_KEY;
      assert target[i] == path;
      ref := ref[path := FieldError(message)];
      var j := i;
      while j > 0
        invariant 0 <= j <= i <= |target| - 1
        invariant Put(stack[j], target[j..], e) == Some(ref)
      {
        j := j - 1;
        assert target[j..][1..] == target[j + 1..];
        ref := stack[j][paths[j] := Dict(ref)];
      }
      fieldErrors := ref;
      return true;
    }

    /** The inner `mapper(ve, paths)`: for each key in order, descend into a
        non-null, non-array object value with the key appended to `paths`,
        then write the field error of an `_errors` array. Returns false where
        JavaScript throws. */
    method Mapper(ve: Val, paths: seq<string>) returns (ok: bool)
      requires ve.Obj?
      modifies this
      decreases ve
      ensures ok <==> Apply(old(fieldErrors), SitesFrom(ve, 0, paths), joinBy).Some?
      ensures ok ==> Some(fieldErrors) == Apply(old(fieldErrors), SitesFrom(ve, 0, paths), joinBy)
    {
      var i := 0;
      while i < |ve.entries|
        invariant 0 <= i <= |ve.entries|
        invariant Apply(old(fieldErrors), SitesFrom(ve, 0, paths), joinBy)
                  == Apply(fieldErrors, SitesFrom(ve, i, paths), joinBy)
      {
        var key := ve.entries[i].0;
        var value := ve.entries[i].1;
        ghost var nested := if value.Obj? then SitesFrom(value, 0, paths + [key]) else [];
        ghost var here := if key == ERRORS_KEY && value.Arr? then [Site(paths, value.items)] else [];
        ghost var rest := SitesFrom(ve, i + 1, paths);
        ApplyConcat(fieldErrors, nested, here + rest, joinBy);
        assert SitesFrom(ve, i, paths) == nested + (here + rest);
        if value.Obj? {
          var nestedOk := Mapper(value, paths + [key]);
          if !nestedOk {
            return false;
          }
        }
        ApplyConcat(fieldErrors, here, rest, joinBy);
        if key == ERRORS_KEY && value.Arr? {
          var setOk := SetError(paths, Join(value.items, joinBy));
          if !setOk {
            return false;
          }
        }
        i := i + 1;
      }
      return true;
    }
  }

  /** Once the walk of a write has reached a string, the write throws. */
  lemma {:induction false} PutFailsUpward(stack: seq<map<string, Out>>, target: seq<string>, e: Out, i: nat)
    requires i < |stack| && i < |target| - 1
    requires forall k :: 0 <= k < i ==> ChildDict(stack[k], target[k]) == Some(stack[k + 1])
    requires ChildDict(stack[i], target[i]) == None
    ensures Put(stack[0], target, e) == None
  {
    var k := i;
    while k > 0
      invariant 0 <= k <= i
      invariant Put(stack[k], target[k..], e) == None
    {
      k := k - 1;
      assert target[k..][1..] == target[k + 1..];
    }
  }

  /** `mapToHookFormErrors(validationErrors, props)`. */
  method MapToHookFormErrors(validationErrors: Option<seq<(string, Val)>>, props: Option<ErrorMapperProps>)
    returns (r: Outcome<Option<map<string, Out>>>)
    ensures r == HookFormErrors(validationErrors, props)
  {
    if validationErrors.None? || |validationErrors.value| == 0 {
      return Returned(None);
    }
    var mapper := new ErrorMapper(JoinBy(props));
    var ok := mapper.Mapper(Obj(validationErrors.value), []);
    if !ok {
      return ThrewTypeError;
    }
    return Returned(Some(mapper.fieldErrors));
  }
}
