/**
 * The react-hook-form adapter's error mapper, `mapToHookFormErrors`, as values.
 *
 * The mapper walks a validation-errors object in key order. Every `_errors`
 * array it meets becomes a react-hook-form field error
 * `{ type: "validate", message }` written into a fresh output object at the
 * key path that led to the array (the top level writes under "root").
 *
 * This module gives the reference definitions: the list of `_errors` sites in
 * traversal order (`SitesFrom`), one write into the output tree (`Put`), the
 * fold of all writes (`Apply`) and the whole mapper (`HookFormErrors`). The
 * imperative mapper of module HookFormMapper is proved equal to them.
 */
module HookFormAdapter {
  import opened Wrappers

  /** A value inside a validation-errors object. An object lists its own
      enumerable keys in `Object.keys` order. */
  datatype Val =
    | Obj(entries: seq<(string, Val)>)
    | Arr(items: seq<Val>)
    | Str(s: string)
    | Null              // null or undefined
    | Prim(text: string) // a number, boolean or other primitive, with its string form

  /** A value of the output object: a plain object or a string. */
  datatype Out = Dict(entries: map<string, Out>) | Text(s: string)

  /** The mapper either returns (a field-errors object or undefined) or throws
      the TypeError that strict-mode JavaScript raises when a property is
      created on a string. */
  datatype Outcome<T> = Returned(value: T) | ThrewTypeError

  /** `props` of `mapToHookFormErrors`: `{ joinBy?: string }`. */
  datatype ErrorMapperProps = ErrorMapperProps(joinBy: Option<string>)

  const ERRORS_KEY := "_errors"
  const ROOT_KEY := "root"
  const DEFAULT_JOIN_BY := " "
  const VALIDATE := "validate"
  const TYPE_KEY := "type"
  const MESSAGE_KEY := "message"

  /** The react-hook-form `FieldError` the mapper writes. */
  function FieldError(message: string): Out
  {
    Dict(map[TYPE_KEY := Text(VALIDATE), MESSAGE_KEY := Text(message)])
  }

  /** The string form of an array element, as `Array.prototype.join` takes it. */
  function ElementText(v: Val): string
    decreases v
  {
    match v
    case Null => ""
    case Str(s) => s
    case Prim(t) => t
    case Obj(_) => "[object Object]"
    case Arr(items) => Join(items, ",")
  }

  /** `items.join(sep)`. */
  function Join(items: seq<Val>, sep: string): (r: string)
    ensures items != [] ==> ElementText(items[0]) <= r
    ensures |items| >= 2 ==> ElementText(items[0]) + sep <= r
    decreases items
  {
    if items == [] then ""
    else if |items| == 1 then ElementText(items[0])
    else ElementText(items[0]) + sep + Join(items[1..], sep)
  }

  /** Joining two non-empty lists puts exactly one separator between the
      join of the first and the join of the second: the message of a field
      error is its items' texts, separator between consecutive ones. */
  lemma {:induction false} JoinConcat(a: seq<Val>, b: seq<Val>, sep: string)
    requires a != [] && b != []
    ensures Join(a + b, sep) == Join(a, sep) + sep + Join(b, sep)
    decreases |a|
  {
    if |a| == 1 {
      assert (a + b)[1..] == b;
    } else {
      assert (a + b)[1..] == a[1..] + b;
      JoinConcat(a[1..], b, sep);
    }
  }

  // ---------------------------------------------------------------------------
  // The `_errors` arrays of the input, in traversal order
  // ---------------------------------------------------------------------------

  /** An `_errors` array met by the mapper: the keys that led to the object
      holding it (the `paths` argument of the inner `mapper`) and its items. */
  datatype Site = Site(keys: seq<string>, items: seq<Val>)

  /** The sites met by the loop of `mapper(v, paths)` from entry `i` on. For
      each key it first descends into a non-null, non-array object value, and
      then records the value if the key is `_errors` and the value an array. */
  function SitesFrom(v: Val, i: nat, paths: seq<string>): (r: seq<Site>)
    requires v.Obj? && i <= |v.entries|
    ensures forall k :: 0 <= k < |r| ==> paths <= r[k].keys
    decreases v, |v.entries| - i
  {
    if i == |v.entries| then []
    else
      var key := v.entries[i].0;
      var value := v.entries[i].1;
      (if value.Obj? then SitesFrom(value, 0, paths + [key]) else [])
      + (if key == ERRORS_KEY && value.Arr? then [Site(paths, value.items)] else [])
      + SitesFrom(v, i + 1, paths)
  }

  /** All sites of a top-level validation-errors object. */
  function Sites(fields: seq<(string, Val)>): seq<Site>
  {
    SitesFrom(Obj(fields), 0, [])
  }

  /** There is an `_errors` array with `items` reached from entry `i` of `v`
      on, through the keys `ks` of nested non-array objects. */
  ghost predicate ErrorsAt(v: Val, i: nat, ks: seq<string>, items: seq<Val>)
    requires v.Obj? && i <= |v.entries|
    decreases v, |v.entries| - i
  {
    i < |v.entries| &&
    ( (ks == [] && v.entries[i].0 == ERRORS_KEY && v.entries[i].1 == Arr(items))
      || (ks != [] && v.entries[i].0 == ks[0] && v.entries[i].1.Obj?
          && ErrorsAt(v.entries[i].1, 0, ks[1..], items))
      || ErrorsAt(v, i + 1, ks, items))
  }

  /** The traversal meets exactly the `_errors` arrays of the input: a site is
      listed if and only if its keys extend `paths` by a key path through
      nested objects that ends at an `_errors` array with those items. Arrays,
      strings and null under any other key contribute nothing. */
  lemma {:induction false} SitesExact(v: Val, i: nat, paths: seq<string>, s: Site)
    requires v.Obj? && i <= |v.entries|
    ensures s in SitesFrom(v, i, paths)
            <==> paths <= s.keys && ErrorsAt(v, i, s.keys[|paths|..], s.items)
    decreases v, |v.entries| - i
  {
    if i < |v.entries| {
      var key := v.entries[i].0;
      var value := v.entries[i].1;
      var nested := if value.Obj? then SitesFrom(value, 0, paths + [key]) else [];
      var here := if key == ERRORS_KEY && value.Arr? then [Site(paths, value.items)] else [];
      assert SitesFrom(v, i, paths) == nested + here + SitesFrom(v, i + 1, paths);
      SitesExact(v, i + 1, paths, s);
      if value.Obj? {
        SitesExact(value, 0, paths + [key], s);
        NestedKeys(paths, key, s.keys);
      }
      HereKeys(paths, s.keys);
    }
  }

  /** Keys below entry `key` of the object reached through `paths`. */
  lemma NestedKeys(paths: seq<string>, key: string, keys: seq<string>)
    ensures paths + [key] <= keys
            <==> paths <= keys && keys[|paths|..] != [] && keys[|paths|..][0] == key
    ensures paths + [key] <= keys ==> keys[|paths + [key]|..] == keys[|paths|..][1..]
  {
    if paths <= keys && keys[|paths|..] != [] && keys[|paths|..][0] == key {
      assert keys[..|paths| + 1] == paths + [key];
    }
  }

  /** Keys of the object reached through `paths` itself. */
  lemma HereKeys(paths: seq<string>, keys: seq<string>)
    ensures (paths <= keys && keys[|paths|..] == []) <==> keys == paths
  {
  }

  // ---------------------------------------------------------------------------
  // Writing one field error
  // ---------------------------------------------------------------------------

  /** The key path a site writes to: its keys, or "root" at the top level. */
  function TargetPath(keys: seq<string>): (t: seq<string>)
    ensures |t| >= 1
  {
    if keys == [] then [ROOT_KEY] else keys
  }

  /** `ref[p] ??= {}` followed by `ref = ref[p]`: the object under `p`,
      created empty when absent; None when `p` holds a string, on which the
      next property creation throws. */
  function ChildDict(d: map<string, Out>, p: string): (r: Option<map<string, Out>>)
    ensures r.None? <==> Get(Dict(d), [p]).Some? && Get(Dict(d), [p]).value.Text?
    ensures r.Some? ==> Get(Dict(d), [p]).None? || Get(Dict(d), [p]) == Some(Dict(r.value))
    ensures p !in d ==> r == Some(map[])
  {
    if p !in d then Some(map[])
    else match d[p]
      case Dict(m) => Some(m)
      case Text(_) => None
  }

  /** The write `ref[path.last] = v` after walking `ref` down the rest of
      `path` from `root`; None when the walk meets a string. */
  function Put(root: map<string, Out>, path: seq<string>, v: Out): (r: Option<map<string, Out>>)
    requires |path| >= 1
    ensures r.Some? ==> r.value.Keys == root.Keys + {path[0]}
    decreases |path|
  {
    if |path| == 1 then Some(root[path[0] := v])
    else match ChildDict(root, path[0])
      case None => None
      case Some(m) =>
        match Put(m, path[1..], v)
        case None => None
        case Some(m') => Some(root[path[0] := Dict(m')])
  }

  /** The value reached from `o` through the keys `q`. */
  function Get(o: Out, q: seq<string>): Option<Out>
    decreases |q|
  {
    if q == [] then Some(o)
    else match o
      case Text(_) => None
      case Dict(m) => if q[0] in m then Get(m[q[0]], q[1..]) else None
  }

  /** After a write, the written value sits at its path. */
  lemma {:induction false} PutLands(root: map<string, Out>, path: seq<string>, v: Out)
    requires |path| >= 1 && Put(root, path, v).Some?
    ensures Get(Dict(Put(root, path, v).value), path) == Some(v)
    decreases |path|
  {
    if |path| > 1 {
      var m := ChildDict(root, path[0]).value;
      PutLands(m, path[1..], v);
    }
  }

  /** A write leaves every path that is neither a prefix nor an extension of
      its own path as it was. */
  lemma {:induction false} PutFrame(root: map<string, Out>, path: seq<string>, v: Out, q: seq<string>)
    requires |path| >= 1 && Put(root, path, v).Some?
    requires !(path <= q) && !(q <= path)
    ensures Get(Dict(Put(root, path, v).value), q) == Get(Dict(root), q)
    decreases |path|
  {
    var r := Put(root, path, v).value;
    if q[0] == path[0] {
      assert |path| > 1 && |q| > 1;
      var m := ChildDict(root, path[0]).value;
      var m' := Put(m, path[1..], v).value;
      PutFrame(m, path[1..], v, q[1..]);
      assert Get(Dict(r), q) == Get(Dict(m'), q[1..]);
      if path[0] !in root {
        assert Get(Dict(m), q[1..]) == None;
      }
    }
  }

  /** A successful write walked only through objects: no proper prefix of its
      path held a string before, and every one holds an object after. */
  lemma {:induction false} PutWalksObjects(root: map<string, Out>, path: seq<string>, v: Out, q: seq<string>)
    requires |path| >= 1 && Put(root, path, v).Some?
    requires q <= path && q != path
    ensures Get(Dict(root), q).None? || Get(Dict(root), q).value.Dict?
    ensures Get(Dict(Put(root, path, v).value), q).Some?
    ensures Get(Dict(Put(root, path, v).value), q).value.Dict?
    decreases |path|
  {
    if q != [] {
      var m := ChildDict(root, path[0]).value;
      PutWalksObjects(m, path[1..], v, q[1..]);
      if path[0] !in root {
        assert Get(Dict(root), q) == None;
      }
    }
  }

  /** Walking `root` down the proper prefixes of `path` meets a string. */
  ghost predicate WalkMeetsText(root: map<string, Out>, path: seq<string>)
  {
    exists q :: q <= path && q != path && Get(Dict(root), q).Some? && Get(Dict(root), q).value.Text?
  }

  /** A write throws exactly when the walk down its path meets a string. */
  lemma {:induction false} PutFailsIffText(root: map<string, Out>, path: seq<string>, v: Out)
    requires |path| >= 1
    ensures Put(root, path, v).None? <==> WalkMeetsText(root, path)
    decreases |path|
  {
    if Put(root, path, v).None? {
      assert |path| > 1;
      var head := [path[0]];
      assert head <= path && head != path;
      match ChildDict(root, path[0])
      case None =>
        assert Get(Dict(root), head) == Some(root[path[0]]);
      case Some(m) =>
        PutFailsIffText(m, path[1..], v);
        var q' :| q' <= path[1..] && q' != path[1..] && Get(Dict(m), q').Some? && Get(Dict(m), q').value.Text?;
        assert q' != [];
        var q := head + q';
        assert q[1..] == q' && q <= path && q != path;
        assert Get(Dict(root), q) == Get(Dict(m), q');
    } else if WalkMeetsText(root, path) {
      var q :| q <= path && q != path && Get(Dict(root), q).Some? && Get(Dict(root), q).value.Text?;
      PutWalksObjects(root, path, v, q);
    }
  }

  /** A write creates nothing outside its path: every path present afterwards
      was present before, lies on the write's path, or lies inside the
      written value. */
  lemma {:induction false} PutShape(root: map<string, Out>, path: seq<string>, v: Out, q: seq<string>)
    requires |path| >= 1 && Put(root, path, v).Some?
    requires Get(Dict(Put(root, path, v).value), q).Some?
    ensures || Get(Dict(root), q).Some?
            || q <= path
            || (path <= q && Get(v, q[|path|..]).Some?)
    decreases |path|
  {
    var r := Put(root, path, v).value;
    if q != [] && q[0] == path[0] {
      if |path| == 1 {
        assert q[|path|..] == q[1..];
      } else {
        var m := ChildDict(root, path[0]).value;
        if |q| > 1 {
          PutShape(m, path[1..], v, q[1..]);
          if path[1..] <= q[1..] {
            assert q[1..][|path[1..]|..] == q[|path|..];
          }
          if path[0] !in root {
            assert Get(Dict(m), q[1..]) == None;
          }
        }
      }
    } else if q != [] {
      PutFrame(root, path, v, q);
    }
  }

  // ---------------------------------------------------------------------------
  // All writes
  // ---------------------------------------------------------------------------

  /** The field error a site writes, with its messages joined by `sep`. */
  function SiteError(s: Site, sep: string): Out
  {
    FieldError(Join(s.items, sep))
  }

  /** The writes of all sites, in order, starting from `root`; None as soon as
      one write throws. */
  function Apply(root: map<string, Out>, sites: seq<Site>, sep: string): (r: Option<map<string, Out>>)
    ensures r.Some? ==> root.Keys <= r.value.Keys
    decreases |sites|
  {
    if sites == [] then Some(root)
    else match Put(root, TargetPath(sites[0].keys), SiteError(sites[0], sep))
      case None => None
      case Some(r) => Apply(r, sites[1..], sep)
  }

  /** Writing two runs of sites is writing the first run and then the second. */
  lemma {:induction false} ApplyConcat(root: map<string, Out>, a: seq<Site>, b: seq<Site>, sep: string)
    ensures Apply(root, a + b, sep)
            == match Apply(root, a, sep)
               case None => None
               case Some(r) => Apply(r, b, sep)
    decreases |a|
  {
    if a == [] {
      assert a + b == b;
    } else {
      assert (a + b)[0] == a[0];
      assert (a + b)[1..] == a[1..] + b;
      var first := Put(root, TargetPath(a[0].keys), SiteError(a[0], sep));
      if first.Some? {
        ApplyConcat(first.value, a[1..], b, sep);
      }
    }
  }

  /** The writes throw exactly when, for some site, the writes before it
      succeed and the walk down its target path then meets a string. */
  lemma {:induction false} ApplyFailsIffText(root: map<string, Out>, sites: seq<Site>, sep: string)
    ensures Apply(root, sites, sep).None? <==>
              exists j :: 0 <= j < |sites| && Apply(root, sites[..j], sep).Some?
                          && WalkMeetsText(Apply(root, sites[..j], sep).value, TargetPath(sites[j].keys))
    decreases |sites|
  {
    if sites != [] {
      var path := TargetPath(sites[0].keys);
      PutFailsIffText(root, path, SiteError(sites[0], sep));
      assert sites[..0] == [];
      match Put(root, path, SiteError(sites[0], sep))
      case None =>
      case Some(r) =>
        ApplyFailsIffText(r, sites[1..], sep);
        forall j | 1 <= j <= |sites|
          ensures Apply(root, sites[..j], sep) == Apply(r, sites[1..][..j - 1], sep)
        {
          assert sites[..j][0] == sites[0];
          assert sites[..j][1..] == sites[1..][..j - 1];
        }
        if Apply(root, sites, sep).None? {
          var j' :| 0 <= j' < |sites[1..]| && Apply(r, sites[1..][..j'], sep).Some?
                    && WalkMeetsText(Apply(r, sites[1..][..j'], sep).value, TargetPath(sites[1..][j'].keys));
          assert sites[j' + 1] == sites[1..][j'];
          assert Apply(root, sites[..j' + 1], sep) == Apply(r, sites[1..][..j'], sep);
        }
    }
  }

  /** A string no later write reaches stays where it is. */
  lemma {:induction false} ApplyKeepsText(root: map<string, Out>, sites: seq<Site>, sep: string, q: seq<string>, t: string)
    requires Apply(root, sites, sep).Some?
    requires Get(Dict(root), q) == Some(Text(t))
    requires forall j :: 0 <= j < |sites| ==> !(TargetPath(sites[j].keys) <= q)
    ensures Get(Dict(Apply(root, sites, sep).value), q) == Some(Text(t))
    decreases |sites|
  {
    if sites != [] {
      var path := TargetPath(sites[0].keys);
      var r := Put(root, path, SiteError(sites[0], sep)).value;
      assert !(path <= q);
      if q <= path {
        PutWalksObjects(root, path, SiteError(sites[0], sep), q);
      }
      PutFrame(root, path, SiteError(sites[0], sep), q);
      ApplyKeepsText(r, sites[1..], sep, q, t);
    }
  }

  /** The field error of a path: type "validate" and the given message. */
  ghost predicate HasFieldError(o: Out, path: seq<string>, message: string)
  {
    && Get(o, path + [TYPE_KEY]) == Some(Text(VALIDATE))
    && Get(o, path + [MESSAGE_KEY]) == Some(Text(message))
  }

  /** A later write shadows a field error at `path` when it writes to a
      prefix of the error's `type` or `message` entry. */
  ghost predicate Shadows(later: seq<string>, path: seq<string>)
  {
    later <= path + [TYPE_KEY] || later <= path + [MESSAGE_KEY]
  }

  /** Last write wins: the field error of site `i` is in the result unless a
      later site shadows it. Writes below it only add children to it, and
      writes elsewhere leave it alone. */
  lemma {:induction false} ApplyLastWins(root: map<string, Out>, sites: seq<Site>, sep: string, i: nat)
    requires Apply(root, sites, sep).Some?
    requires i < |sites|
    requires forall j :: i < j < |sites| ==> !Shadows(TargetPath(sites[j].keys), TargetPath(sites[i].keys))
    ensures HasFieldError(Dict(Apply(root, sites, sep).value), TargetPath(sites[i].keys), Join(sites[i].items, sep))
    decreases |sites|
  {
    var path := TargetPath(sites[0].keys);
    var r := Put(root, path, SiteError(sites[0], sep)).value;
    if i == 0 {
      var e := SiteError(sites[0], sep);
      PutLands(root, path, e);
      var message := Join(sites[0].items, sep);
      forall key | key in {TYPE_KEY, MESSAGE_KEY}
        ensures Get(Dict(r), path + [key]) == Get(e, [key])
      {
        GetAppend(Dict(r), path, [key]);
      }
      assert Get(e, [TYPE_KEY]) == Some(Text(VALIDATE));
      assert Get(e, [MESSAGE_KEY]) == Some(Text(message));
      forall j | 0 <= j < |sites[1..]|
        ensures !(TargetPath(sites[1..][j].keys) <= path + [TYPE_KEY])
        ensures !(TargetPath(sites[1..][j].keys) <= path + [MESSAGE_KEY])
      {
        assert sites[1..][j] == sites[j + 1];
      }
      ApplyKeepsText(r, sites[1..], sep, path + [TYPE_KEY], VALIDATE);
      ApplyKeepsText(r, sites[1..], sep, path + [MESSAGE_KEY], message);
    } else {
      forall j | i - 1 < j < |sites[1..]|
        ensures !Shadows(TargetPath(sites[1..][j].keys), TargetPath(sites[1..][i - 1].keys))
      {
        assert sites[1..][j] == sites[j + 1];
      }
      ApplyLastWins(r, sites[1..], sep, i - 1);
    }
  }

  /** Following `a + b` is following `a` and then `b`. */
  lemma {:induction false} GetAppend(o: Out, a: seq<string>, b: seq<string>)
    requires Get(o, a).Some?
    ensures Get(o, a + b) == Get(Get(o, a).value, b)
    decreases |a|
  {
    if a == [] {
      assert a + b == b;
    } else {
      assert (a + b)[0] == a[0];
      assert (a + b)[1..] == a[1..] + b;
      GetAppend(o.entries[a[0]], a[1..], b);
    }
  }

  /** A path `q` is covered by a write to `target` when it leads to or
      through the written field error. */
  ghost predicate Covers(target: seq<string>, q: seq<string>)
  {
    q <= target || q == target + [TYPE_KEY] || q == target + [MESSAGE_KEY]
  }

  /** The paths of a field error: itself, its type and its message. */
  lemma FieldErrorPaths(message: string, rest: seq<string>)
    requires Get(FieldError(message), rest).Some?
    ensures rest == [] || rest == [TYPE_KEY] || rest == [MESSAGE_KEY]
  {
    if rest != [] {
      assert rest[0] == TYPE_KEY || rest[0] == MESSAGE_KEY;
      assert |rest| == 1;
    }
  }

  /** Soundness of all writes: every path of the result was there before or
      is covered by one of the writes. */
  lemma {:induction false} ApplySound(root: map<string, Out>, sites: seq<Site>, sep: string, q: seq<string>)
    requires Apply(root, sites, sep).Some?
    requires Get(Dict(Apply(root, sites, sep).value), q).Some?
    ensures || Get(Dict(root), q).Some?
            || exists j :: 0 <= j < |sites| && Covers(TargetPath(sites[j].keys), q)
    decreases |sites|
  {
    if sites != [] {
      var path := TargetPath(sites[0].keys);
      var e := SiteError(sites[0], sep);
      var r := Put(root, path, e).value;
      ApplySound(r, sites[1..], sep, q);
      if Get(Dict(r), q).Some? {
        PutShape(root, path, e, q);
        if !Get(Dict(root), q).Some? {
          if path <= q && !(q <= path) {
            FieldErrorPaths(Join(sites[0].items, sep), q[|path|..]);
            assert q == path + q[|path|..];
          }
          assert Covers(TargetPath(sites[0].keys), q);
        }
      } else {
        var j :| 0 <= j < |sites[1..]| && Covers(TargetPath(sites[1..][j].keys), q);
        assert sites[1..][j] == sites[j + 1];
      }
    }
  }

  // ---------------------------------------------------------------------------
  // The mapper
  // ---------------------------------------------------------------------------

  /** `mapToHookFormErrors(validationErrors, props)`: undefined for an absent
      or key-less object; otherwise the field errors of every `_errors` array,
      written in traversal order into an empty object. */
  function HookFormErrors(validationErrors: Option<seq<(string, Val)>>, props: Option<ErrorMapperProps>)
    : (r: Outcome<Option<map<string, Out>>>)
    ensures validationErrors.None? ==> r == Returned(None)
    ensures validationErrors == Some([]) ==> r == Returned(None)
    ensures validationErrors.Some? && validationErrors.value != [] ==> r != Returned(None)
  {
    if validationErrors.None? || |validationErrors.value| == 0 then Returned(None)
    else
      var sep := JoinBy(props);
      match Apply(map[], Sites(validationErrors.value), sep)
      case None => ThrewTypeError
      case Some(fieldErrors) => Returned(Some(fieldErrors))
  }

  /** `props?.joinBy ?? " "`. */
  function JoinBy(props: Option<ErrorMapperProps>): string
  {
    if props.Some? && props.value.joinBy.Some? then props.value.joinBy.value else DEFAULT_JOIN_BY
  }

  /** A non-empty input without any `_errors` array yields an empty object,
      not undefined. */
  lemma {:induction false} NoErrorArraysYieldEmpty(fields: seq<(string, Val)>, props: Option<ErrorMapperProps>)
    requires fields != []
    requires forall ks, items :: !ErrorsAt(Obj(fields), 0, ks, items)
    ensures HookFormErrors(Some(fields), props) == Returned(Some(map[]))
  {
    if Sites(fields) != [] {
      SitesExact(Obj(fields), 0, [], Sites(fields)[0]);
      assert false;
    }
  }

  /** Soundness: every entry of the result lies on the way to, or inside, the
      field error of some `_errors` array of the input, at that array's key
      path (or "root" for the top level). Nothing else is written. */
  lemma FieldErrorsSound(fields: seq<(string, Val)>, props: Option<ErrorMapperProps>,
                         fieldErrors: map<string, Out>, q: seq<string>)
    requires HookFormErrors(Some(fields), props) == Returned(Some(fieldErrors))
    requires q != [] && Get(Dict(fieldErrors), q).Some?
    ensures exists ks, items :: ErrorsAt(Obj(fields), 0, ks, items) && Covers(TargetPath(ks), q)
  {
    var sep := JoinBy(props);
    ApplySound(map[], Sites(fields), sep, q);
    var j :| 0 <= j < |Sites(fields)| && Covers(TargetPath(Sites(fields)[j].keys), q);
    var s := Sites(fields)[j];
    SitesExact(Obj(fields), 0, [], s);
    assert s.keys[0..] == s.keys;
    assert ErrorsAt(Obj(fields), 0, s.keys, s.items);
  }

  /** Completeness: the `_errors` array of every site that no later site
      shadows appears in the result as a field error of type "validate" whose
      message is the array joined by `joinBy` (default one space), at the
      site's key path, or under "root" for the top level. */
  lemma FieldErrorsComplete(fields: seq<(string, Val)>, props: Option<ErrorMapperProps>,
                            fieldErrors: map<string, Out>, i: nat)
    requires HookFormErrors(Some(fields), props) == Returned(Some(fieldErrors))
    requires i < |Sites(fields)|
    requires forall j :: i < j < |Sites(fields)| ==>
               !Shadows(TargetPath(Sites(fields)[j].keys), TargetPath(Sites(fields)[i].keys))
    ensures ErrorsAt(Obj(fields), 0, Sites(fields)[i].keys, Sites(fields)[i].items)
    ensures HasFieldError(Dict(fieldErrors), TargetPath(Sites(fields)[i].keys),
                          Join(Sites(fields)[i].items, JoinBy(props)))
  {
    var s := Sites(fields)[i];
    SitesExact(Obj(fields), 0, [], s);
    assert s.keys[0..] == s.keys;
    ApplyLastWins(map[], Sites(fields), JoinBy(props), i);
  }

  /** The mapper throws a TypeError exactly when, for some `_errors` array of
      the input, the writes of the arrays before it succeed and the walk down
      its key path then meets a string (a `type` or `message` of an earlier
      field error). */
  lemma MapperThrowsIffWalkMeetsText(fields: seq<(string, Val)>, props: Option<ErrorMapperProps>)
    requires fields != []
    ensures HookFormErrors(Some(fields), props) == ThrewTypeError <==>
              exists j :: 0 <= j < |Sites(fields)| && Apply(map[], Sites(fields)[..j], JoinBy(props)).Some?
                          && WalkMeetsText(Apply(map[], Sites(fields)[..j], JoinBy(props)).value,
                                           TargetPath(Sites(fields)[j].keys))
  {
    ApplyFailsIffText(map[], Sites(fields), JoinBy(props));
  }

  // ---------------------------------------------------------------------------
  // Worked inputs
  // ---------------------------------------------------------------------------

  /** An `_errors` entry holding one message. */
  function Errors(message: string): (string, Val)
  {
    (ERRORS_KEY, Arr([Str(message)]))
  }

  /** The only site of an object holding just one `_errors` entry. */
  lemma LeafSites(message: string, paths: seq<string>)
    ensures SitesFrom(Obj([Errors(message)]), 0, paths) == [Site(paths, [Str(message)])]
  {
    assert SitesFrom(Obj([Errors(message)]), 1, paths) == [];
  }

  /** Top-level `_errors` go under "root", joined by one space by default. */
  lemma TopLevelUnderRoot()
    ensures HookFormErrors(Some([(ERRORS_KEY, Arr([Str("bad"), Str("input")]))]), None)
            == Returned(Some(map[ROOT_KEY := FieldError("bad input")]))
  {
    var items := [Str("bad"), Str("input")];
    var fields := [(ERRORS_KEY, Arr(items))];
    assert SitesFrom(Obj(fields), 1, []) == [];
    assert Sites(fields) == [Site([], items)];
    assert Join(items, " ") == "bad input" by {
      assert items[1..] == [Str("input")];
    }
    assert Apply(map[], [Site([], items)], " ") == Some(map[ROOT_KEY := FieldError("bad input")]) by {
      assert [Site([], items)][1..] == [];
    }
  }

  /** Errors that share a prefix end up under one container, created once. */
  lemma SharedPrefixShareContainer()
    ensures HookFormErrors(Some([("user", Obj([("name", Obj([Errors("x")])),
                                                ("mail", Obj([Errors("y")]))]))]), None)
            == Returned(Some(map["user" := Dict(map["name" := FieldError("x"), "mail" := FieldError("y")])]))
  {
    var user := Obj([("name", Obj([Errors("x")])), ("mail", Obj([Errors("y")]))]);
    var fields := [("user", user)];
    var site1 := Site(["user", "name"], [Str("x")]);
    var site2 := Site(["user", "mail"], [Str("y")]);
    assert [] + ["user"] == ["user"] && ["user"] + ["name"] == site1.keys && ["user"] + ["mail"] == site2.keys;
    LeafSites("x", site1.keys);
    LeafSites("y", site2.keys);
    assert SitesFrom(user, 2, ["user"]) == [];
    assert SitesFrom(user, 1, ["user"]) == [site2];
    assert SitesFrom(user, 0, ["user"]) == [site1, site2];
    assert SitesFrom(Obj(fields), 1, []) == [];
    assert Sites(fields) == [site1, site2];
    var after1 := map["user" := Dict(map["name" := FieldError("x")])];
    assert Put(map[], site1.keys, FieldError("x")) == Some(after1) by {
      assert site1.keys[1..] == ["name"];
    }
    var after2 := map["user" := Dict(map["name" := FieldError("x"), "mail" := FieldError("y")])];
    assert Put(after1, site2.keys, FieldError("y")) == Some(after2) by {
      assert site2.keys[1..] == ["mail"];
      assert ChildDict(after1, "user") == Some(map["name" := FieldError("x")]);
      var both := map["name" := FieldError("x"), "mail" := FieldError("y")];
      assert Put(map["name" := FieldError("x")], ["mail"], FieldError("y")) == Some(both);
      assert after1["user" := Dict(both)] == after2;
    }
    assert [site1, site2][1..] == [site2] && [site2][1..] == [];
  }

  /** A parent's `_errors` listed after a child key replaces the container
      that the child's error was written into. */
  lemma LaterParentOverwrites()
    ensures HookFormErrors(Some([("user", Obj([("name", Obj([Errors("x")])), Errors("y")]))]), None)
            == Returned(Some(map["user" := FieldError("y")]))
  {
    var user := Obj([("name", Obj([Errors("x")])), Errors("y")]);
    var fields := [("user", user)];
    var site1 := Site(["user", "name"], [Str("x")]);
    var site2 := Site(["user"], [Str("y")]);
    assert [] + ["user"] == ["user"] && ["user"] + ["name"] == site1.keys;
    LeafSites("x", site1.keys);
    assert SitesFrom(user, 2, ["user"]) == [];
    assert SitesFrom(user, 1, ["user"]) == [site2];
    assert SitesFrom(user, 0, ["user"]) == [site1, site2];
    assert SitesFrom(Obj(fields), 1, []) == [];
    assert Sites(fields) == [site1, site2];
    var after1 := map["user" := Dict(map["name" := FieldError("x")])];
    assert Put(map[], site1.keys, FieldError("x")) == Some(after1) by {
      assert site1.keys[1..] == ["name"];
    }
    assert Put(after1, site2.keys, FieldError("y")) == Some(map["user" := FieldError("y")]) by {
      assert after1["user" := FieldError("y")] == map["user" := FieldError("y")];
    }
    assert [site1, site2][1..] == [site2] && [site2][1..] == [];
  }

  /** A parent's `_errors` listed before a child key: the child's error is
      added to the parent's field error object. */
  lemma EarlierParentGainsChild()
    ensures HookFormErrors(Some([("user", Obj([Errors("y"), ("name", Obj([Errors("x")]))]))]), None)
            == Returned(Some(map["user" := Dict(map[TYPE_KEY := Text(VALIDATE), MESSAGE_KEY := Text("y"),
                                                    "name" := FieldError("x")])]))
  {
    var user := Obj([Errors("y"), ("name", Obj([Errors("x")]))]);
    var fields := [("user", user)];
    var site1 := Site(["user"], [Str("y")]);
    var site2 := Site(["user", "name"], [Str("x")]);
    assert [] + ["user"] == ["user"] && ["user"] + ["name"] == site2.keys;
    LeafSites("x", site2.keys);
    assert SitesFrom(user, 2, ["user"]) == [];
    assert SitesFrom(user, 1, ["user"]) == [site2];
    assert SitesFrom(user, 0, ["user"]) == [site1, site2];
    assert SitesFrom(Obj(fields), 1, []) == [];
    assert Sites(fields) == [site1, site2];
    var after1 := map["user" := FieldError("y")];
    assert Put(map[], site1.keys, FieldError("y")) == Some(after1);
    var merged := map[TYPE_KEY := Text(VALIDATE), MESSAGE_KEY := Text("y"), "name" := FieldError("x")];
    assert Put(after1, site2.keys, FieldError("x")) == Some(map["user" := Dict(merged)]) by {
      var error := map[TYPE_KEY := Text(VALIDATE), MESSAGE_KEY := Text("y")];
      assert site2.keys[1..] == ["name"];
      assert ChildDict(after1, "user") == Some(error);
      assert Put(error, ["name"], FieldError("x")) == Some(merged);
      assert after1["user" := Dict(merged)] == map["user" := Dict(merged)];
    }
    assert [site1, site2][1..] == [site2] && [site2][1..] == [];
  }

  /** A field named "message" below a field that already has an error makes
      the walk reach the error's message string, and the write throws. */
  lemma FieldNamedMessageThrows()
    ensures HookFormErrors(Some([("user", Obj([Errors("y"),
                                                (MESSAGE_KEY, Obj([("inner", Obj([Errors("x")]))]))]))]), None)
            == ThrewTypeError
  {
    var msg := Obj([("inner", Obj([Errors("x")]))]);
    var user := Obj([Errors("y"), (MESSAGE_KEY, msg)]);
    var fields := [("user", user)];
    var site1 := Site(["user"], [Str("y")]);
    var site2 := Site(["user", MESSAGE_KEY, "inner"], [Str("x")]);
    assert [] + ["user"] == ["user"] && ["user"] + [MESSAGE_KEY] == ["user", MESSAGE_KEY];
    assert ["user", MESSAGE_KEY] + ["inner"] == site2.keys;
    LeafSites("x", site2.keys);
    assert SitesFrom(msg, 1, ["user", MESSAGE_KEY]) == [];
    assert SitesFrom(msg, 0, ["user", MESSAGE_KEY]) == [site2];
    assert SitesFrom(user, 2, ["user"]) == [];
    assert SitesFrom(user, 1, ["user"]) == [site2];
    assert SitesFrom(user, 0, ["user"]) == [site1, site2];
    assert SitesFrom(Obj(fields), 1, []) == [];
    assert Sites(fields) == [site1, site2];
    var after1 := map["user" := FieldError("y")];
    assert Put(map[], site1.keys, FieldError("y")) == Some(after1);
    assert Put(after1, site2.keys, FieldError("x")) == None by {
      var error := map[TYPE_KEY := Text(VALIDATE), MESSAGE_KEY := Text("y")];
      assert site2.keys[1..] == [MESSAGE_KEY, "inner"];
      assert ChildDict(after1, "user") == Some(error);
      assert ChildDict(error, MESSAGE_KEY) == None;
      assert Put(error, [MESSAGE_KEY, "inner"], FieldError("x")) == None;
    }
    assert [site1, site2][1..] == [site2];
    assert Apply(after1, [site2], DEFAULT_JOIN_BY) == None;
    assert Apply(map[], [site1, site2], DEFAULT_JOIN_BY) == None;
  }
}
