/** The model list of app/lib/modules/llm/android/ModelManager.ts. The list lives
    under the storage key `models`; the field `stored` is what that key holds, with
    `None` for a missing or unparsable value. Downloading, unlinking and loading into
    the network are outcomes given to the operations. Every lookup matches a model
    by substring of its path, not by equality. */
module Models {
  import opened Common

  datatype TensorflowModel = TensorflowModel(path: string, inputShape: seq<int>, outputShape: seq<int>, accelerator: Option<string>)

  /** `Omit<TensorflowModel, 'path'>`. */
  datatype ModelConfig = ModelConfig(inputShape: seq<int>, outputShape: seq<int>, accelerator: Option<string>)

  const DefaultModelName := "model.tflite"

  /** `s.split('/').pop()`: the longest suffix of `s` without a `/`. */
  function LastSegment(s: string): (r: string)
    ensures EndsWith(s, r)
    ensures forall i :: 0 <= i < |r| ==> r[i] != '/'
    ensures |r| < |s| ==> s[|s| - |r| - 1] == '/'
    ensures r == [] <==> s == [] || s[|s| - 1] == '/'
  {
    if s == [] || s[|s| - 1] == '/' then []
    else
      var p := s[..|s| - 1];
      var c := s[|s| - 1];
      var init := LastSegment(p);
      assert s == p + [c];
      assert s[|s| - |init| - 1..] == p[|p| - |init|..] + [c];
      init + [c]
  }

  /** The file name `downloadModel` gives a URL: the last path segment, or
      `model.tflite` when that is empty. */
  function ModelName(url: string): (r: string)
    ensures r != "" && forall i :: 0 <= i < |r| ==> r[i] != '/'
    ensures url == "" || url[|url| - 1] == '/' ==> r == DefaultModelName
    ensures url != "" && url[|url| - 1] != '/' ==>
      EndsWith(url, r) && (|r| < |url| ==> url[|url| - |r| - 1] == '/')
  {
    var last := LastSegment(url);
    if last == "" then DefaultModelName else last
  }

  function ModelPath(modelDir: string, name: string): string
  {
    modelDir + "/" + name
  }

  /** The test `m.path.includes(modelName)`. */
  predicate Matches(m: TensorflowModel, name: string)
  {
    Contains(m.path, name)
  }

  /** `findIndex`: the first model that matches. */
  function FirstMatch(models: seq<TensorflowModel>, name: string): (r: Option<nat>)
    ensures r.Some? ==> r.value < |models| && Matches(models[r.value], name)
    ensures r.Some? ==> forall j :: 0 <= j < r.value ==> !Matches(models[j], name)
    ensures r.None? ==> forall j :: 0 <= j < |models| ==> !Matches(models[j], name)
  {
    if models == [] then None
    else if Matches(models[0], name) then Some(0)
    else
      match FirstMatch(models[1..], name)
      case None => None
      case Some(i) => Some(i + 1)
  }

  /** `models.find(...) || null`. */
  function Find(models: seq<TensorflowModel>, name: string): (r: Option<TensorflowModel>)
    ensures r.Some? <==> exists j :: 0 <= j < |models| && Matches(models[j], name)
    ensures r.Some? ==> Matches(r.value, name) && r.value in models
    ensures r.Some? ==>
      exists i :: 0 <= i < |models| && r.value == models[i] && (forall j :: 0 <= j < i ==> !Matches(models[j], name))
  {
    match FirstMatch(models, name)
    case None => None
    case Some(i) => Some(models[i])
  }

  /** The list `saveModelInfo` writes back: the first matching entry replaced, or the
      model appended when none matches. */
  function Upserted(models: seq<TensorflowModel>, name: string, model: TensorflowModel): (r: seq<TensorflowModel>)
    ensures FirstMatch(models, name).Some? ==>
      var i := FirstMatch(models, name).value;
      |r| == |models| && r[i] == model && forall j :: 0 <= j < |models| && j != i ==> r[j] == models[j]
    ensures FirstMatch(models, name).None? ==> r == models + [model]
  {
    match FirstMatch(models, name)
    case None => models + [model]
    case Some(i) => models[i := model]
  }

  /** The list `removeModelInfo` writes back: the matching entries dropped, the others
      kept in order. */
  function Filtered(models: seq<TensorflowModel>, name: string): (r: seq<TensorflowModel>)
    ensures |r| <= |models|
    ensures forall m :: m in r <==> m in models && !Matches(m, name)
  {
    if models == [] then []
    else
      var rest := Filtered(models[..|models| - 1], name);
      var m := models[|models| - 1];
      assert models == models[..|models| - 1] + [m];
      if Matches(m, name) then rest else rest + [m]
  }

  /** The filter keeps order: filtering a concatenation filters each part in place. */
  lemma {:induction false} FilteredAppend(a: seq<TensorflowModel>, b: seq<TensorflowModel>, name: string)
    ensures Filtered(a + b, name) == Filtered(a, name) + Filtered(b, name)
    decreases |b|
  {
    if b == [] {
      assert a + b == a;
    } else {
      var last := b[|b| - 1];
      var init := b[..|b| - 1];
      assert (a + b)[..|a + b| - 1] == a + init;
      assert (a + b)[|a + b| - 1] == last;
      FilteredAppend(a, init, name);
    }
  }

  /** With `FilteredAppend`, the filter is fixed entry by entry: one entry is kept
      exactly when its path does not contain the name. */
  lemma FilteredOne(m: TensorflowModel, name: string)
    ensures Filtered([m], name) == if Matches(m, name) then [] else [m]
  {
    assert [m][..0] == [];
  }

  /** A saved model that matches its name is what the next lookup finds. */
  lemma SaveThenFind(models: seq<TensorflowModel>, name: string, model: TensorflowModel)
    requires Matches(model, name)
    ensures Find(Upserted(models, name, model), name) == Some(model)
  {
    var r := Upserted(models, name, model);
    match FirstMatch(models, name)
    case None =>
      assert r[|models|] == model;
      assert FirstMatch(r, name) == Some(|models|) by {
        FirstMatchAt(r, name, |models|);
      }
    case Some(i) =>
      FirstMatchAt(r, name, i);
  }

  lemma {:induction false} FirstMatchAt(models: seq<TensorflowModel>, name: string, i: nat)
    requires i < |models| && Matches(models[i], name)
    requires forall j :: 0 <= j < i ==> !Matches(models[j], name)
    ensures FirstMatch(models, name) == Some(i)
  {
    if i > 0 {
      FirstMatchAt(models[1..], name, i - 1);
    }
  }

  /** After removal nothing matches the name any more. */
  lemma RemoveThenFind(models: seq<TensorflowModel>, name: string)
    ensures Find(Filtered(models, name), name).None?
  {
    var r := Filtered(models, name);
    forall j | 0 <= j < |r| ensures !Matches(r[j], name) {
      assert r[j] in r;
    }
  }

  /** The path `downloadModel` stores contains the name it saves it under. */
  lemma PathMatchesName(modelDir: string, url: string)
    ensures Contains(ModelPath(modelDir, ModelName(url)), ModelName(url))
  {
    var name := ModelName(url);
    var p := ModelPath(modelDir, name);
    assert p[|modelDir| + 1..|modelDir| + 1 + |name|] == name;
    ContainsAt(p, name, |modelDir| + 1);
  }

  class ModelManager {
    const modelDir: string
    var stored: Option<seq<TensorflowModel>>

    constructor (modelDir: string, stored: Option<seq<TensorflowModel>>)
      ensures this.modelDir == modelDir && this.stored == stored
    {
      this.modelDir := modelDir;
      this.stored := stored;
    }

    /** `listModels`: a missing or unparsable list reads as empty. */
    function ListModels(): (r: seq<TensorflowModel>)
      reads this
      ensures stored.None? ==> r == []
      ensures stored.Some? ==> r == stored.value
    {
      ListOrEmpty(stored)
    }

    /** `getModelInfo`. */
    function GetModelInfo(name: string): (r: Option<TensorflowModel>)
      reads this
      ensures r.Some? <==> exists j :: 0 <= j < |ListModels()| && Matches(ListModels()[j], name)
      ensures r.Some? ==> Matches(r.value, name)
      ensures r.Some? ==>
        exists i :: 0 <= i < |ListModels()| && r.value == ListModels()[i] && (forall j :: 0 <= j < i ==> !Matches(ListModels()[j], name))
    {
      Find(ListModels(), name)
    }

    /** `saveModelInfo`: the `findIndex` loop, then the entry replaced in place or the
        model pushed, and the list written back. */
    method SaveModelInfo(name: string, model: TensorflowModel)
      modifies this`stored
      ensures stored == Some(Upserted(old(ListModels()), name, model))
      ensures |stored.value| <= |old(ListModels())| + 1
    {
      var models := ListModels();
      var i := 0;
      while i < |models| && !Matches(models[i], name)
        invariant 0 <= i <= |models|
        invariant forall j :: 0 <= j < i ==> !Matches(models[j], name)
      {
        i := i + 1;
      }
      if i < |models| {
        FirstMatchAt(models, name, i);
        models := models[i := model];
      } else {
        models := models + [model];
      }
      stored := Some(models);
    }

    /** `removeModelInfo`. */
    method RemoveModelInfo(name: string)
      modifies this`stored
      ensures stored == Some(Filtered(old(ListModels()), name))
    {
      stored := Some(Filtered(ListModels(), name));
    }

    /** `downloadModel`: the file goes to `modelDir/<name>` and the model is saved only
        once the download finished; it is then what a lookup of its name finds. */
    method DownloadModel(url: string, config: ModelConfig, downloaded: Outcome) returns (r: Result<TensorflowModel>)
      modifies this`stored
      ensures downloaded.Fail? ==> r == Err(downloaded.error) && stored == old(stored)
      ensures downloaded.Pass? ==>
        var name := ModelName(url);
        var model := TensorflowModel(ModelPath(modelDir, name), config.inputShape, config.outputShape, config.accelerator);
        && r == Ok(model)
        && stored == Some(Upserted(old(ListModels()), name, model))
        && GetModelInfo(name) == Some(model)
    {
      var name := ModelName(url);
      var path := ModelPath(modelDir, name);
      if downloaded.Fail? {
        return Err(downloaded.error);
      }
      var model := TensorflowModel(path, config.inputShape, config.outputShape, config.accelerator);
      PathMatchesName(modelDir, url);
      SaveThenFind(ListModels(), name, model);
      SaveModelInfo(name, model);
      r := Ok(model);
    }

    /** `loadModel`: an unknown name is an error before anything is loaded; `loaded`
        is what the network reports. */
    method LoadModel(name: string, loaded: bool) returns (r: Result<TensorflowModel>)
      ensures GetModelInfo(name).None? ==> r == Err("Model " + name + " not found")
      ensures GetModelInfo(name).Some? && !loaded ==> r == Err("Failed to load model " + name)
      ensures GetModelInfo(name).Some? && loaded ==> r == Ok(GetModelInfo(name).value)
    {
      var model := GetModelInfo(name);
      if model.None? {
        return Err("Model " + name + " not found");
      }
      if !loaded {
        return Err("Failed to load model " + name);
      }
      r := Ok(model.value);
    }

    /** `deleteModel`: an unknown name is an error; the entries are removed only after
        the file was unlinked, and then no entry matches the name. */
    method DeleteModel(name: string, unlinked: Outcome) returns (r: Outcome)
      modifies this`stored
      ensures old(GetModelInfo(name)).None? ==> r == Fail("Model " + name + " not found") && stored == old(stored)
      ensures old(GetModelInfo(name)).Some? && unlinked.Fail? ==> r == unlinked && stored == old(stored)
      ensures old(GetModelInfo(name)).Some? && unlinked.Pass? ==>
        r == Pass && stored == Some(Filtered(old(ListModels()), name)) && GetModelInfo(name).None?
    {
      var model := GetModelInfo(name);
      if model.None? {
        return Fail("Model " + name + " not found");
      }
      if unlinked.Fail? {
        return unlinked;
      }
      RemoveThenFind(ListModels(), name);
      RemoveModelInfo(name);
      r := Pass;
    }
  }
}
