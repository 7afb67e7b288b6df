/**
 * The in-memory store of image-analysis results (Services/FoodAnalysisStore.cs):
 * an append-only list with a read-only view and a bulk `Clear`.
 */
module Analysis {
  import opened Models

  class FoodAnalysisStore {
    /** The recorded results, oldest first. */
    var results: seq<FoodAnalysisResult>

    /** A new store is empty. */
    constructor ()
      ensures results == []
    {
      results := [];
    }

    /**
     * The `Results` view, in insertion order, as a snapshot value (the code
     * hands out the live list behind `IReadOnlyList`).
     */
    function Results(): (r: seq<FoodAnalysisResult>)
      reads this
      ensures r == results
    {
      results
    }

    /**
     * Records a new result built by the object initialiser
     * `new FoodAnalysisResult { ImageBase64 = …, Caption = …, JsonTable = … }`;
     * `now` is the clock reading its `CreatedAt` initialiser takes.
     */
    method Add(base64Image: string, caption: string, jsonTable: string, now: DateTime)
      modifies this
      ensures |results| == |old(results)| + 1
      ensures results[..|old(results)|] == old(results)
      ensures results[|results| - 1] == FoodAnalysisResult(base64Image, caption, now, jsonTable)
    {
      var entry := NewFoodAnalysisResult(now).(imageBase64 := base64Image, caption := caption, jsonTable := jsonTable);
      results := results + [entry];
    }

    /** Empties the store, whatever it held; clearing an empty store leaves it empty. */
    method Clear()
      modifies this
      ensures results == []
    {
      results := [];
    }
  }
}
