/** Record extraction: every decoded `record` message of the activity file
    becomes one dictionary from field name to field value, and the
    dictionaries keep the order of the messages in the file. Decoding the
    binary file itself is not part of this model; a message is given here as
    its list of already decoded (name, value) fields. Line numbers in the
    comments below are those of `data_processing.py`. */
module Records {

  datatype Field<V> = Field(name: string, value: V)

  /** One row of the table the rest of the pipeline reads: the timestamp and
      the three metrics it uses. */
  datatype Sample = Sample(timestamp: int, power: int, heartRate: int, cadence: int)

  /** The dictionary left after assigning the fields of one message in turn:
      a later field overwrites an earlier one with the same name. */
  function RecordOf<V>(fields: seq<Field<V>>): (r: map<string, V>)
    ensures r.Keys == set k | 0 <= k < |fields| :: fields[k].name
  {
    if fields == [] then map[]
    else
      var last := fields[|fields| - 1];
      var r := RecordOf(fields[..|fields| - 1])[last.name := last.value];
      assert forall k :: 0 <= k < |fields| - 1 ==> fields[..|fields| - 1][k] == fields[k];
      r
  }

  /** The value a record holds under a name is the value of the last field
      of that name in the message. */
  lemma {:induction false} RecordOfLastWins<V>(fields: seq<Field<V>>, k: nat)
    requires k < |fields|
    requires forall j :: k < j < |fields| ==> fields[j].name != fields[k].name
    ensures fields[k].name in RecordOf(fields)
    ensures RecordOf(fields)[fields[k].name] == fields[k].value
  {
    var n := |fields| - 1;
    if k < n {
      var init := fields[..n];
      forall j | k < j < |init| ensures init[j].name != init[k].name {
        assert init[j] == fields[j];
      }
      RecordOfLastWins(init, k);
      assert init[k] == fields[k];
    }
  }

  /** Lines 18-23: one dictionary per message, built field by field in the
      inner loop and appended in file order by the outer one. */
  method ExtractRecords<V>(messages: seq<seq<Field<V>>>) returns (records: seq<map<string, V>>)
    ensures |records| == |messages|
    ensures forall i :: 0 <= i < |messages| ==> records[i] == RecordOf(messages[i])
  {
    records := [];
    for i := 0 to |messages|
      invariant |records| == i
      invariant forall k :: 0 <= k < i ==> records[k] == RecordOf(messages[k])
    {
      var message := messages[i];
      var recordData: map<string, V> := map[];
      for j := 0 to |message|
        invariant recordData == RecordOf(message[..j])
      {
        assert message[..j + 1][..j] == message[..j];
        recordData := recordData[message[j].name := message[j].value];
      }
      assert message[..|message|] == message;
      records := records + [recordData];
    }
  }
}
