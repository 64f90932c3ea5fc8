/** The device settings page: its device list, the add-device form and the
    add and remove handlers. */
module DeviceSettings {

  import Lists

  datatype DeviceType = Sensor | Controller | Monitor
  datatype DeviceStatus = Online | Offline | Maintenance

  datatype Device = Device(id: string, name: string, deviceType: DeviceType,
                           status: DeviceStatus, lastSeen: string)

  /** The add-device form. */
  datatype Form = Form(name: string, deviceType: DeviceType, deviceId: string)

  datatype Page = Page(devices: seq<Device>, form: Form)

  const EmptyForm: Form := Form("", Sensor, "")

  /** The ids, in list order. */
  function Ids(devices: seq<Device>): seq<string> {
    Lists.Map(devices, (x: Device) => x.id)
  }

  /** `handleAddDevice`: unless both the name and the id were entered,
      nothing happens. Otherwise the device with the entered id, name and
      type is appended, offline and never seen, and the form is cleared. No
      check is made that the id is new. */
  function AddDevice(page: Page): (r: Page)
    ensures page.form.name == "" || page.form.deviceId == "" ==> r == page
    ensures page.form.name != "" && page.form.deviceId != "" ==>
      && |r.devices| == |page.devices| + 1
      && r.devices[..|page.devices|] == page.devices
      && r.devices[|page.devices|] == Device(page.form.deviceId, page.form.name, page.form.deviceType, Offline, "Never")
      && r.form == EmptyForm
  {
    if page.form.name != "" && page.form.deviceId != "" then
      var device := Device(page.form.deviceId, page.form.name, page.form.deviceType, Offline, "Never");
      var r := Page(page.devices + [device], EmptyForm);
      assert r.devices[..|page.devices|] == page.devices;
      r
    else
      page
  }

  /** `handleRemoveDevice`: every device with this id goes, the others stay
      in order, and the form is untouched. */
  function RemoveDevice(page: Page, id: string): (r: Page)
    ensures forall d :: d in r.devices <==> d in page.devices && d.id != id
    ensures forall d ::
      Lists.Occurrences(r.devices, d) == if d.id != id then Lists.Occurrences(page.devices, d) else 0
    ensures id !in Ids(r.devices)
    ensures Lists.IsSubsequence(r.devices, page.devices)
    ensures r.form == page.form
  {
    page.(devices := Lists.Filter(page.devices, (d: Device) => d.id != id))
  }

  /** Adding under an id already in the list gives two devices with that
      id. */
  lemma AddAllowsDuplicateId(page: Page, i: nat)
    requires i < |page.devices| && page.form.name != "" && page.form.deviceId != ""
    requires page.form.deviceId == page.devices[i].id
    ensures var r := AddDevice(page).devices;
      r[i].id == r[|page.devices|].id && i != |page.devices|
  {
  }

  /** Removing under a fresh id right after adding it gives back the list
      from before. */
  lemma RemoveUndoesAdd(page: Page)
    requires page.form.name != "" && page.form.deviceId != ""
    requires page.form.deviceId !in Ids(page.devices)
    ensures RemoveDevice(AddDevice(page), page.form.deviceId).devices == page.devices
  {
    var added := AddDevice(page).devices;
    var keep := (d: Device) => d.id != page.form.deviceId;
    assert added == page.devices + [added[|page.devices|]];
    Lists.FilterAppend(page.devices, added[|page.devices|], keep);
    Lists.FilterKeepsAll(page.devices, keep);
  }
}
