/** The quests slice of the store: the cached dataset, the fetch status and the
    last error, with the three reducer cases of the fetch action. */
module QuestsCache {
  import opened QuestTypes

  datatype Status = Idle | Loading | Succeeded | Failed

  /** What a fetch delivers. Achievements and prestige tiers are kept as
      opaque records; only the task list is read by the quest selector. */
  datatype Dataset = Dataset(achievements: seq<string>, prestige: seq<string>, tasks: seq<Quest>)

  class QuestsSlice {
    var data: Dataset
    var status: Status
    var error: Option<string>

    /** The data the slice starts with, before any fetch has succeeded. */
    ghost const placeholder: Dataset
    /** The payloads of the successful fetches so far, oldest first. */
    ghost var delivered: seq<Dataset>
    /** How many times `data` has been replaced by a new value. */
    ghost var replacements: nat

    /** The data is the last delivered payload, or the placeholder when no
        fetch has succeeded: it is replaced wholesale, never merged. */
    ghost predicate Valid()
      reads this
    {
      data == if delivered == [] then placeholder else delivered[|delivered| - 1]
    }

    constructor (placeholder: Dataset)
      ensures Valid()
      ensures this.placeholder == placeholder && delivered == [] && replacements == 0
      ensures data == placeholder && status == Idle && error == None
    {
      this.placeholder := placeholder;
      data := placeholder;
      status := Idle;
      error := None;
      delivered := [];
      replacements := 0;
    }

    /** `fetchQuests.pending`: only the status changes. */
    method Pending()
      requires Valid()
      modifies this
      ensures Valid()
      ensures status == Loading
      ensures data == old(data) && error == old(error)
      ensures delivered == old(delivered) && replacements == old(replacements)
    {
      status := Loading;
    }

    /** `fetchQuests.fulfilled`: the data becomes the payload; it is replaced
        only when it is not already structurally equal to it. */
    method Fulfilled(payload: Dataset)
      requires Valid()
      modifies this
      ensures Valid()
      ensures status == Succeeded && data == payload && error == old(error)
      ensures delivered == old(delivered) + [payload]
      ensures replacements == old(replacements) + (if old(data) == payload then 0 else 1)
    {
      status := Succeeded;
      if data != payload {
        data := payload;
        replacements := replacements + 1;
      }
      delivered := delivered + [payload];
    }

    /** `fetchQuests.rejected`: the status becomes failed and the error the
        action's payload (absent when the fetch supplies none); the data stays. */
    method Rejected(payload: Option<string>)
      requires Valid()
      modifies this
      ensures Valid()
      ensures status == Failed && error == payload
      ensures data == old(data) && delivered == old(delivered) && replacements == old(replacements)
    {
      status := Failed;
      error := payload;
    }
  }
}
