/**
 * The client's upload state (`upload` slice): the batches of files the user
 * has submitted, a processing flag and two error fields.
 *
 * Files are represented by their names. The clock is read twice when a
 * batch is recorded, once for its id and once for its timestamp; both
 * readings are parameters.
 */
module UploadSlice {
  import opened Wrappers
  import opened Text
  import Seqs

  type FileName = string

  datatype UploadBatch = UploadBatch(id: string, timestamp: int, files: seq<FileName>)

  function LacksId(id: string): UploadBatch -> bool {
    (b: UploadBatch) => b.id != id
  }

  /** `action.error.message || "Failed to process batch"`. */
  function FailureMessage(message: Option<string>): (r: string)
    ensures r != ""
    ensures message.Some? && message.value != "" ==> r == message.value
    ensures message.None? || message.value == "" ==> r == "Failed to process batch"
  {
    if message.Some? && message.value != "" then message.value else "Failed to process batch"
  }

  /** Removing by id drops every batch with that id and keeps every other batch, in order. */
  lemma RemoveByIdEffect(bs: seq<UploadBatch>, id: string)
    ensures var r := Seqs.Filter(bs, LacksId(id));
            (forall i :: 0 <= i < |r| ==> r[i].id != id)
            && (forall i :: 0 <= i < |bs| && bs[i].id != id ==> bs[i] in r)
            && ((forall i :: 0 <= i < |bs| ==> bs[i].id != id) ==> r == bs)
  {
    var r := Seqs.Filter(bs, LacksId(id));
    assert forall i :: 0 <= i < |r| ==> LacksId(id)(r[i]);
    assert forall i :: 0 <= i < |bs| && bs[i].id != id ==> LacksId(id)(bs[i]);
    Seqs.FilterAll(bs, LacksId(id));
  }

  /** Removing a batch just recorded under a fresh id gives back the earlier batches. */
  lemma RemoveUndoesRecord(bs: seq<UploadBatch>, b: UploadBatch)
    requires forall i :: 0 <= i < |bs| ==> bs[i].id != b.id
    ensures Seqs.Filter(bs + [b], LacksId(b.id)) == bs
  {
    Seqs.FilterAppend(bs, [b], LacksId(b.id));
    Seqs.FilterAll(bs, LacksId(b.id));
    assert Seqs.Filter([b], LacksId(b.id)) == [];
  }

  class State {
    var batches: seq<UploadBatch>
    var isProcessing: bool
    var currentBatchError: Option<string>
    var processingError: Option<string>

    /** The initial state: no batches, not processing, no errors. */
    constructor()
      ensures batches == [] && !isProcessing && currentBatchError == None && processingError == None
    {
      batches := [];
      isProcessing := false;
      currentBatchError := None;
      processingError := None;
    }

    method ClearBatches()
      modifies this
      ensures batches == []
      ensures isProcessing == old(isProcessing) && currentBatchError == old(currentBatchError)
      ensures processingError == old(processingError)
    {
      batches := [];
    }

    method RemoveBatch(id: string)
      modifies this
      ensures batches == Seqs.Filter(old(batches), LacksId(id))
      ensures isProcessing == old(isProcessing) && currentBatchError == old(currentBatchError)
      ensures processingError == old(processingError)
    {
      batches := Seqs.Filter(batches, LacksId(id));
    }

    method ProcessPending()
      modifies this
      ensures isProcessing && currentBatchError == None
      ensures batches == old(batches) && processingError == old(processingError)
    {
      isProcessing := true;
      currentBatchError := None;
    }

    /** Records the processed files as one new batch, at the end. */
    method ProcessFulfilled(files: seq<FileName>, nowForId: nat, nowForTimestamp: nat)
      modifies this
      ensures !isProcessing
      ensures batches == old(batches) + [UploadBatch(DecimalString(nowForId), nowForTimestamp, files)]
      ensures currentBatchError == old(currentBatchError) && processingError == old(processingError)
    {
      isProcessing := false;
      var newBatch := UploadBatch(DecimalString(nowForId), nowForTimestamp, files);
      batches := batches + [newBatch];
    }

    method ProcessRejected(message: Option<string>)
      modifies this
      ensures !isProcessing && currentBatchError == Some(FailureMessage(message))
      ensures batches == old(batches) && processingError == old(processingError)
    {
      isProcessing := false;
      currentBatchError := Some(FailureMessage(message));
    }
  }
}
