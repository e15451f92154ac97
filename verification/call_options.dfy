/** The "select a number to call" dialog: two fixed shop numbers, each shown
    with the +91 country code and dialled through a `tel:` link. */
module CallOptions {
  import opened Common

  datatype Number = Number(title: string, phone: string)

  /** The numbers offered, in the order shown. */
  const Numbers := [Number("Primary Contact", "8608807283"), Number("Secondary Contact", "9943025989")]

  const CountryPrefix := "+91"

  /** The dialog renders nothing while closed and the two numbers while open. */
  function Render(isOpen: bool): (shown: Option<seq<Number>>)
    ensures shown.None? <==> !isOpen
    ensures shown.Some? ==> |shown.value| == 2 && shown.value == Numbers
  {
    if isOpen then Some(Numbers) else None
  }

  /** Effect of choosing a number: the page navigates to `url` and the
      dialog's `onClose` is invoked. */
  datatype Call = Call(url: string, closed: bool)

  function HandleCall(phone: string): (c: Call)
    ensures c.closed
    ensures |c.url| == 7 + |phone| && c.url[..7] == "tel:+91" && c.url[7..] == phone
  {
    Call("tel:" + CountryPrefix + phone, true)
  }

  /** Where the first five digits end in the display form. */
  function Split(n: nat): (k: nat)
    ensures k <= n && k <= 5
    ensures k == 5 || k == n
  {
    if n < 5 then n else 5
  }

  /** `+91 {phone.slice(0, 5)} {phone.slice(5)}`. */
  function Display(phone: string): (d: string)
    ensures |d| == |phone| + 5
    ensures d[..4] == "+91 " && d[4 + Split(|phone|)] == ' '
    ensures d[4..4 + Split(|phone|)] == phone[..Split(|phone|)]
    ensures d[5 + Split(|phone|)..] == phone[Split(|phone|)..]
  {
    var k := Split(|phone|);
    CountryPrefix + " " + phone[..k] + " " + phone[k..]
  }

  /** Reads the digits back out of a display string: drop the prefix and the
      separating space. */
  function DisplayedPhone(d: string): string {
    if |d| < 5 then d
    else
      var rest := d[4..];
      var k := Split(|rest| - 1);
      rest[..k] + rest[k + 1..]
  }

  /** The display form loses no digit: every number can be read back from
      what the dialog shows. */
  lemma DisplayRoundTrip(phone: string)
    ensures DisplayedPhone(Display(phone)) == phone
  {
    var d := Display(phone);
    var k := Split(|phone|);
    var rest := d[4..];
    assert Split(|rest| - 1) == k;
    assert rest[..k] == phone[..k];
    assert rest[k + 1..] == phone[k..];
    assert phone[..k] + phone[k..] == phone;
  }
}
