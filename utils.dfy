/**
 * The pure helpers: the control-character filter, `isUndefined`, the three task-configuration
 * classifiers and the allowed-method check.
 */
module Utils {
  import opened Wrappers
  import opened Values

  // ---------------------------------------------------------------------------------------------
  // removeControlCharacters

  /** `[\u0000-\u001F\u007F-\u009F]`: the C0 controls, DEL and the C1 controls. */
  predicate IsControl(c: char)
  {
    c <= '\U{1F}' || ('\U{7F}' <= c <= '\U{9F}')
  }

  /** `[\x20-\x7E]`: printable ASCII. */
  predicate IsPrintableAscii(c: char)
  {
    ' ' <= c <= '~'
  }

  /** The first replace: every control character removed. */
  function RemoveControls(s: string): string
  {
    if s == [] then [] else (if IsControl(s[0]) then [] else [s[0]]) + RemoveControls(s[1..])
  }

  /** The second replace: every character outside printable ASCII removed. */
  function KeepPrintable(s: string): string
  {
    if s == [] then [] else (if IsPrintableAscii(s[0]) then [s[0]] else []) + KeepPrintable(s[1..])
  }

  /** `removeControlCharacters`: the two replaces in order. */
  function RemoveControlCharacters(s: string): string
  {
    KeepPrintable(RemoveControls(s))
  }

  /** `a` can be obtained from `b` by deleting characters. */
  predicate IsSubsequence(a: string, b: string)
  {
    if a == [] then true
    else if b == [] then false
    else if a[0] == b[0] then IsSubsequence(a[1..], b[1..])
    else IsSubsequence(a, b[1..])
  }

  /** The second replace on a text with a known first character. */
  lemma KeepPrintableCons(c: char, t: string)
    ensures KeepPrintable([c] + t) == (if IsPrintableAscii(c) then [c] else []) + KeepPrintable(t)
  {
    assert ([c] + t)[1..] == t;
  }

  lemma {:induction false} KeepPrintableAfterRemoveControls(s: string)
    ensures KeepPrintable(RemoveControls(s)) == KeepPrintable(s)
  {
    if s != [] {
      var rest := RemoveControls(s[1..]);
      KeepPrintableAfterRemoveControls(s[1..]);
      if !IsControl(s[0]) {
        assert RemoveControls(s) == [s[0]] + rest;
        KeepPrintableCons(s[0], rest);
      } else {
        assert RemoveControls(s) == rest;
        assert !IsPrintableAscii(s[0]);
      }
    }
  }

  /** The first replace is subsumed by the second: the filter keeps exactly the printable ASCII characters. */
  lemma RemoveControlCharactersIsOneFilter(s: string)
    ensures RemoveControlCharacters(s) == KeepPrintable(s)
  {
    KeepPrintableAfterRemoveControls(s);
  }

  /** Every character of the output is printable ASCII. */
  lemma {:induction false} KeepPrintableOnlyPrintable(s: string)
    ensures forall i :: 0 <= i < |KeepPrintable(s)| ==> IsPrintableAscii(KeepPrintable(s)[i])
  {
    if s != [] {
      KeepPrintableOnlyPrintable(s[1..]);
    }
  }

  /** Each printable character occurs in the output as often as in the input; no other character occurs. */
  lemma {:induction false} KeepPrintableCounts(s: string)
    ensures forall c :: IsPrintableAscii(c) ==> multiset(KeepPrintable(s))[c] == multiset(s)[c]
    ensures forall c :: !IsPrintableAscii(c) ==> multiset(KeepPrintable(s))[c] == 0
  {
    if s != [] {
      KeepPrintableCounts(s[1..]);
      assert s == [s[0]] + s[1..];
      assert multiset(s) == multiset{s[0]} + multiset(s[1..]);
    }
  }

  /** The output keeps the input's order: it is a subsequence of the input. */
  lemma {:induction false} KeepPrintableSubsequence(s: string)
    ensures IsSubsequence(KeepPrintable(s), s)
  {
    if s != [] {
      KeepPrintableSubsequence(s[1..]);
      var rest := KeepPrintable(s[1..]);
      if IsPrintableAscii(s[0]) {
        assert ([s[0]] + rest)[1..] == rest;
      } else {
        assert KeepPrintable(s) == rest;
        assert s == [s[0]] + s[1..];
        SubsequenceCons(rest, s[0], s[1..]);
      }
    }
  }

  /** A subsequence of `b` is a subsequence of `b` with a character in front. */
  lemma {:induction false} SubsequenceCons(a: string, c: char, b: string)
    requires IsSubsequence(a, b)
    ensures IsSubsequence(a, [c] + b)
    decreases |b| + 1, 0
  {
    assert ([c] + b)[1..] == b;
    if a != [] && a[0] == c {
      SubsequenceDropFirst(a, b);
    }
  }

  /** Dropping the first character of a subsequence leaves a subsequence. */
  lemma {:induction false} SubsequenceDropFirst(a: string, b: string)
    requires a != [] && IsSubsequence(a, b)
    ensures IsSubsequence(a[1..], b)
    decreases |b|, 1
  {
    assert b != [];
    assert b == [b[0]] + b[1..];
    if a[0] == b[0] {
      SubsequenceCons(a[1..], b[0], b[1..]);
    } else {
      SubsequenceDropFirst(a, b[1..]);
      SubsequenceCons(a[1..], b[0], b[1..]);
    }
  }

  /** Text that is already printable ASCII comes back unchanged. */
  lemma {:induction false} PrintableUnchanged(s: string)
    requires forall i :: 0 <= i < |s| ==> IsPrintableAscii(s[i])
    ensures RemoveControlCharacters(s) == s
  {
    RemoveControlCharactersIsOneFilter(s);
    KeepPrintableFixes(s);
  }

  lemma {:induction false} KeepPrintableFixes(s: string)
    requires forall i :: 0 <= i < |s| ==> IsPrintableAscii(s[i])
    ensures KeepPrintable(s) == s
  {
    if s != [] {
      KeepPrintableFixes(s[1..]);
    }
  }

  /** Filtering twice is filtering once. */
  lemma RemoveControlCharactersIdempotent(s: string)
    ensures RemoveControlCharacters(RemoveControlCharacters(s)) == RemoveControlCharacters(s)
  {
    KeepPrintableOnlyPrintable(RemoveControls(s));
    PrintableUnchanged(RemoveControlCharacters(s));
  }

  // ---------------------------------------------------------------------------------------------
  // isUndefined

  /** `typeof obj === 'undefined'`: only a missing value; `null`, `false`, `0` and `""` are defined. */
  predicate IsUndefined(v: Option<Value>)
  {
    v.None?
  }

  /**
   * The `typeof` test is not a truthiness test: every undefined value is falsy, and the two tests
   * disagree exactly on the defined falsy values (`null`, `false`, `0`, `""`).
   */
  lemma UndefinedIsOnlyMissing(v: Option<Value>)
    ensures IsUndefined(v) ==> !TruthyOpt(v)
    ensures (IsUndefined(v) != !TruthyOpt(v)) <==> v.Some? && !Truthy(v.value)
    ensures forall w :: !IsUndefined(Some(w)) && (!Truthy(w) <==> w in [Null, Bool(false), Num(0), Str("")])
  {
    if v.Some? && !Truthy(v.value) {
      assert v.value in [Null, Bool(false), Num(0), Str("")];
    }
  }

  // ---------------------------------------------------------------------------------------------
  // Task-configuration classifiers

  /** Truthiness of the property at a path, `undefined` on anything that is not an object. */
  predicate HasTruthy(conf: Value, path: Path)
  {
    TruthyOpt(Lookup(conf, path))
  }

  /** `isDeployTask`: `user`, `site`, `git` and `git.storage` are all truthy. `post` is not looked at. */
  predicate IsDeployTask(conf: Value)
    requires !conf.Null?
  {
    HasTruthy(conf, ["user"]) && HasTruthy(conf, ["site"]) && HasTruthy(conf, ["git"]) && HasTruthy(conf, ["git", "storage"])
  }

  /** `isPublishTask`: `site`, `git` and `git.publisher` truthy, `user` and `post` falsy or absent. */
  predicate IsPublishTask(conf: Value)
    requires !conf.Null?
  {
    && HasTruthy(conf, ["site"]) && HasTruthy(conf, ["git"]) && HasTruthy(conf, ["git", "publisher"])
    && !HasTruthy(conf, ["user"]) && !HasTruthy(conf, ["post"])
  }

  /** `isPostTask`: `post` is truthy. */
  predicate IsPostTask(conf: Value)
    requires !conf.Null?
  {
    HasTruthy(conf, ["post"])
  }

  /** A deploy configuration is never a publish configuration: one needs `user`, the other excludes it. */
  lemma DeployExcludesPublish(conf: Value)
    requires !conf.Null?
    ensures !(IsDeployTask(conf) && IsPublishTask(conf))
  {
  }

  /** A publish configuration is never a post configuration: one excludes `post`, the other needs it. */
  lemma PublishExcludesPost(conf: Value)
    requires !conf.Null?
    ensures !(IsPublishTask(conf) && IsPostTask(conf))
  {
  }

  /** The intended deploy classifier: the deploy fields, and no `post`. */
  predicate IsDeployOnlyTask(conf: Value)
    requires !conf.Null?
  {
    IsDeployTask(conf) && !IsPostTask(conf)
  }

  /** With the corrected deploy classifier the three classes are pairwise exclusive. */
  lemma ClassesExclusive(conf: Value)
    requires !conf.Null?
    ensures !(IsDeployOnlyTask(conf) && IsPublishTask(conf))
    ensures !(IsDeployOnlyTask(conf) && IsPostTask(conf))
    ensures !(IsPublishTask(conf) && IsPostTask(conf))
  {
  }

  /** Reading `key` from an object whose first field named `key` is at `i`. */
  lemma LookupAt(fields: seq<Field>, i: nat, key: string)
    requires i < |fields| && fields[i].key == key
    requires forall j :: 0 <= j < i ==> fields[j].key != key
    ensures Lookup(Obj(fields), [key]) == Some(fields[i].value)
  {
    FindFieldAt(fields, i, key);
  }

  /** Reading `key.inner` goes through the value of `key`. */
  lemma LookupThrough(fields: seq<Field>, i: nat, key: string, inner: string)
    requires i < |fields| && fields[i].key == key
    requires forall j :: 0 <= j < i ==> fields[j].key != key
    ensures Lookup(Obj(fields), [key, inner]) == Lookup(fields[i].value, [inner])
  {
    FindFieldAt(fields, i, key);
    assert [key, inner][1..] == [inner];
  }

  /** The deploy configuration of the classifier tests: `task`, `user`, `site`, and `git` holding `storage`. */
  function DeployShaped(task: seq<Field>, user: seq<Field>, site: seq<Field>, storage: seq<Field>): seq<Field>
  {
    [Field("task", Obj(task)), Field("user", Obj(user)), Field("site", Obj(site)), Field("git", Obj([Field("storage", Obj(storage))]))]
  }

  /** The publish configuration of the classifier tests: `task`, `site`, and `git` holding `publisher`. */
  function PublishShaped(task: seq<Field>, site: seq<Field>, publisher: seq<Field>): seq<Field>
  {
    [Field("task", Obj(task)), Field("site", Obj(site)), Field("git", Obj([Field("publisher", Obj(publisher))]))]
  }

  /** The post configuration of the classifier tests: the deploy fields, then `post`. */
  function PostShaped(task: seq<Field>, user: seq<Field>, site: seq<Field>, storage: seq<Field>, post: seq<Field>): seq<Field>
  {
    DeployShaped(task, user, site, storage) + [Field("post", Obj(post))]
  }

  lemma DeployFieldsTruthy(fields: seq<Field>, storage: seq<Field>)
    requires |fields| >= 4 && fields[0].key == "task"
    requires fields[1].key == "user" && fields[1].value.Obj?
    requires fields[2].key == "site" && fields[2].value.Obj?
    requires fields[3] == Field("git", Obj([Field("storage", Obj(storage))]))
    ensures IsDeployTask(Obj(fields))
  {
    LookupAt(fields, 1, "user");
    LookupAt(fields, 2, "site");
    LookupAt(fields, 3, "git");
    LookupThrough(fields, 3, "git", "storage");
    LookupAt([Field("storage", Obj(storage))], 0, "storage");
  }

  lemma PostFieldTruthy(task: seq<Field>, user: seq<Field>, site: seq<Field>, storage: seq<Field>, post: seq<Field>)
    ensures IsPostTask(Obj(PostShaped(task, user, site, storage, post)))
  {
    var f := PostShaped(task, user, site, storage, post);
    assert f[4] == Field("post", Obj(post));
    assert f[0].key != "post" && f[1].key != "post" && f[2].key != "post" && f[3].key != "post";
    LookupAt(f, 4, "post");
  }

  /**
   * As written, a configuration shaped like the tests' post configuration is a deploy task as well
   * as a post task, although its test says it is not a deploy task.
   */
  lemma PostShapedIsDeploy(task: seq<Field>, user: seq<Field>, site: seq<Field>, storage: seq<Field>, post: seq<Field>)
    ensures var conf := Obj(PostShaped(task, user, site, storage, post)); IsDeployTask(conf) && IsPostTask(conf)
  {
    var f := PostShaped(task, user, site, storage, post);
    assert f[..4] == DeployShaped(task, user, site, storage);
    DeployFieldsTruthy(f, storage);
    PostFieldTruthy(task, user, site, storage, post);
  }

  /** Configurations shaped like the tests' deploy configuration are deploy tasks only. */
  lemma DeployShapedClassified(task: seq<Field>, user: seq<Field>, site: seq<Field>, storage: seq<Field>)
    ensures var conf := Obj(DeployShaped(task, user, site, storage));
      IsDeployOnlyTask(conf) && !IsPublishTask(conf) && !IsPostTask(conf)
  {
    var f := DeployShaped(task, user, site, storage);
    DeployFieldsTruthy(f, storage);
    assert FindField(f, "post").None?;
  }

  lemma PublishFieldsTruthy(task: seq<Field>, site: seq<Field>, publisher: seq<Field>)
    ensures var conf := Obj(PublishShaped(task, site, publisher));
      HasTruthy(conf, ["site"]) && HasTruthy(conf, ["git"]) && HasTruthy(conf, ["git", "publisher"])
  {
    var f := PublishShaped(task, site, publisher);
    LookupAt(f, 1, "site");
    LookupAt(f, 2, "git");
    LookupThrough(f, 2, "git", "publisher");
    LookupAt([Field("publisher", Obj(publisher))], 0, "publisher");
  }

  /** Configurations shaped like the tests' publish configuration are publish tasks only. */
  lemma PublishShapedClassified(task: seq<Field>, site: seq<Field>, publisher: seq<Field>)
    ensures var conf := Obj(PublishShaped(task, site, publisher));
      !IsDeployOnlyTask(conf) && IsPublishTask(conf) && !IsPostTask(conf)
  {
    var f := PublishShaped(task, site, publisher);
    PublishFieldsTruthy(task, site, publisher);
    assert FindField(f, "user").None? && FindField(f, "post").None?;
  }

  /** With the corrected classifier, configurations shaped like the post configuration are post tasks only, as the test expects. */
  lemma PostShapedClassified(task: seq<Field>, user: seq<Field>, site: seq<Field>, storage: seq<Field>, post: seq<Field>)
    ensures var conf := Obj(PostShaped(task, user, site, storage, post));
      !IsDeployOnlyTask(conf) && !IsPublishTask(conf) && IsPostTask(conf)
  {
    PostShapedIsDeploy(task, user, site, storage, post);
  }

  // ---------------------------------------------------------------------------------------------
  // checkAllowedTasks

  /** `checkAllowedTasks`: passes when the method is in the allowed list, and otherwise throws. */
  function CheckAllowedTasks(check: string, alloweds: seq<string>): Outcome<JsError>
  {
    if check in alloweds then Pass
    else Fail(PlainError("Task method " + check + " is not allowed or supported."))
  }

  /** The check fails exactly for a method outside the list, and then with the fixed message. */
  lemma CheckAllowedTasksFails(check: string, alloweds: seq<string>)
    ensures CheckAllowedTasks(check, alloweds).Fail? <==> forall i :: 0 <= i < |alloweds| ==> alloweds[i] != check
    ensures CheckAllowedTasks(check, alloweds).Fail? ==>
      ErrorText(CheckAllowedTasks(check, alloweds).error) == "Error: Task method " + check + " is not allowed or supported."
  {
  }
}
