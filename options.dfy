/** The option table (opkg_option_t) and the lookup that opkg_set_option runs
    over it. The table is the sentinel-terminated array; its sentinel is the end
    of the sequence. */
module Options {
  import opened Wrappers

  /** The option's type tag together with the value it points at. */
  datatype OptionValue =
    | BoolValue(flag: int)
    | IntValue(number: int)
    | StringValue(text: string)

  datatype OptionEntry = OptionEntry(name: string, value: OptionValue)

  /** What the caller's `void *value` points at: an int for boolean and integer
      options, a string for string options. */
  datatype OptionArg = IntArg(n: int) | StringArg(s: string)

  predicate Fits(v: OptionValue, arg: OptionArg) {
    if v.StringValue? then arg.StringArg? else arg.IntArg?
  }

  /** The value stored for `arg` in an option of `v`'s type. */
  function Store(v: OptionValue, arg: OptionArg): (r: OptionValue)
    requires Fits(v, arg)
    ensures r.BoolValue? == v.BoolValue? && r.IntValue? == v.IntValue? && r.StringValue? == v.StringValue?
    ensures r.BoolValue? ==> (r.flag == 0 || r.flag == 1) && (r.flag == 1 <==> arg.n != 0)
    ensures r.IntValue? ==> r.number == arg.n
    ensures r.StringValue? ==> r.text == arg.s
  {
    match v
    case BoolValue(_) => BoolValue(if arg.n == 0 then 0 else 1)
    case IntValue(_) => IntValue(arg.n)
    case StringValue(_) => StringValue(arg.s)
  }

  predicate HasOption(options: seq<OptionEntry>, name: string) {
    exists i :: 0 <= i < |options| && options[i].name == name
  }

  /** The position of the first entry called `name`, if any. */
  function FirstIndex(options: seq<OptionEntry>, name: string): (r: Option<nat>)
    ensures r.Some? ==> r.value < |options| && options[r.value].name == name
    ensures r.Some? ==> forall j :: 0 <= j < r.value ==> options[j].name != name
    ensures r.None? ==> forall j :: 0 <= j < |options| ==> options[j].name != name
  {
    if options == [] then None
    else if options[0].name == name then Some(0)
    else match FirstIndex(options[1..], name)
      case None => None
      case Some(i) => Some(i + 1)
  }

  /** The linear search of opkg_set_option: the first entry with that name. */
  method OptionIndex(options: seq<OptionEntry>, name: string) returns (i: nat)
    requires HasOption(options, name)
    ensures i < |options| && options[i].name == name
    ensures forall j :: 0 <= j < i ==> options[j].name != name
  {
    i := 0;
    while options[i].name != name
      invariant i < |options|
      invariant forall j :: 0 <= j < i ==> options[j].name != name
      invariant HasOption(options[i..], name)
      decreases |options| - i
    {
      var k :| 0 <= k < |options[i..]| && options[i..][k] == options[i + k] && options[i + k].name == name;
      assert k != 0;
      assert options[i + 1..][k - 1] == options[i + k];
      i := i + 1;
    }
  }

  /** The table after opkg_set_option(name, arg): the first entry of that name
      holds the stored value. */
  function SetValue(options: seq<OptionEntry>, name: string, arg: OptionArg): seq<OptionEntry>
    requires HasOption(options, name)
    requires Fits(options[FirstIndex(options, name).value].value, arg)
  {
    var i := FirstIndex(options, name).value;
    options[i := options[i].(value := Store(options[i].value, arg))]
  }

  /** The lookup opkg_get_option is meant to perform: the value of the first
      entry of that name, or None when there is none. */
  function GetOption(options: seq<OptionEntry>, name: string): (r: Option<OptionValue>)
    ensures r.Some? <==> HasOption(options, name)
  {
    match FirstIndex(options, name)
    case None => None
    case Some(i) => Some(options[i].value)
  }

  /** Reading an option back after setting it gives the normalised value, and
      every other option reads as before. */
  lemma SetThenGet(options: seq<OptionEntry>, name: string, arg: OptionArg, other: string)
    requires HasOption(options, name)
    requires Fits(options[FirstIndex(options, name).value].value, arg)
    ensures var updated := SetValue(options, name, arg);
      && GetOption(updated, name) == Some(Store(GetOption(options, name).value, arg))
      && (other != name ==> GetOption(updated, other) == GetOption(options, other))
  {
    var i := FirstIndex(options, name).value;
    var updated := SetValue(options, name, arg);
    assert forall j :: 0 <= j < |updated| ==> updated[j].name == options[j].name;
    FirstIndexSameNames(options, updated, name);
    FirstIndexSameNames(options, updated, other);
  }

  /** The lookup depends only on the names. */
  lemma {:induction false} FirstIndexSameNames(a: seq<OptionEntry>, b: seq<OptionEntry>, name: string)
    requires |a| == |b| && forall j :: 0 <= j < |a| ==> a[j].name == b[j].name
    ensures FirstIndex(a, name) == FirstIndex(b, name)
  {
    if a != [] {
      FirstIndexSameNames(a[1..], b[1..], name);
    }
  }
}
