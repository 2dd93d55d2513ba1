/** The message-blocking form: look up an account and switch its two blocking settings, URL
    blocking and number blocking, one at a time. */
module AccountSettings {
  import opened Wrappers
  import opened JsString
  import opened AccountCheck

  /** What the back end reports for an account. */
  datatype AccountStatus = AccountStatus(accountExists: bool, blockUrlInMessage: bool, blockNumberInMessage: bool)

  /** The two settings the form can switch. */
  datatype BlockSetting = BlockUrlInMessage | BlockNumberInMessage

  /** The setting's field name, as sent to the back end. */
  function SettingName(s: BlockSetting): (name: string)
    ensures name == "blockUrlInMessage" <==> s == BlockUrlInMessage
  {
    match s
    case BlockUrlInMessage => "blockUrlInMessage"
    case BlockNumberInMessage => "blockNumberInMessage"
  }

  /** The setting's name in notices. */
  function SettingLabel(s: BlockSetting): (text: string)
    ensures text == "URL blocking" <==> s == BlockUrlInMessage
  {
    if s == BlockUrlInMessage then "URL blocking" else "number blocking"
  }

  /** The value of one setting in a status. */
  function Setting(status: AccountStatus, s: BlockSetting): bool {
    match s
    case BlockUrlInMessage => status.blockUrlInMessage
    case BlockNumberInMessage => status.blockNumberInMessage
  }

  /** `mockCheckAccountStatus`: the account exists by the shared last-digit rule; an existing
      account's settings are the coins, a missing account's are both off. */
  function MockCheckAccountStatus(id: string, coinUrl: bool, coinNumber: bool): (s: AccountStatus)
    ensures s.accountExists <==> AccountExists(id)
    ensures !s.accountExists ==> !s.blockUrlInMessage && !s.blockNumberInMessage
    ensures s.accountExists ==> s.blockUrlInMessage == coinUrl && s.blockNumberInMessage == coinNumber
  {
    var exists_ := AccountExists(id);
    AccountStatus(exists_, if exists_ then coinUrl else false, if exists_ then coinNumber else false)
  }

  /** `mockUpdateBlockSetting`: fails with "Invalid account ID" exactly for the empty id. */
  function MockUpdateBlockSetting(id: string, setting: BlockSetting, value: bool): (r: Result<string, string>)
    ensures r.Failure? <==> id == ""
    ensures r.Failure? ==> r.error == "Invalid account ID"
  {
    if id == "" then Failure("Invalid account ID")
    else Success("Account " + id + " setting \"" + SettingName(setting) + "\" updated to " + BoolText(value))
  }

  /** The status with one setting replaced; with no status there is nothing to set. */
  function WithSetting(prev: Option<AccountStatus>, setting: BlockSetting, value: bool): (r: Option<AccountStatus>)
    ensures prev.None? <==> r.None?
    ensures r.Some? ==> Setting(r.value, setting) == value
    ensures r.Some? ==> r.value.accountExists == prev.value.accountExists
    ensures r.Some? ==> forall other :: other != setting ==> Setting(r.value, other) == Setting(prev.value, other)
  {
    match prev
    case None => None
    case Some(s) =>
      match setting
      case BlockUrlInMessage => Some(s.(blockUrlInMessage := value))
      case BlockNumberInMessage => Some(s.(blockNumberInMessage := value))
  }

  /** Updates of the two settings commute. */
  lemma WithSettingCommutes(prev: Option<AccountStatus>, a: BlockSetting, va: bool, b: BlockSetting, vb: bool)
    requires a != b
    ensures WithSetting(WithSetting(prev, a, va), b, vb) == WithSetting(WithSetting(prev, b, vb), a, va)
  {
    if prev.Some? {
      var ab := WithSetting(WithSetting(prev, a, va), b, vb).value;
      var ba := WithSetting(WithSetting(prev, b, vb), a, va).value;
      assert Setting(ab, BlockUrlInMessage) == Setting(ba, BlockUrlInMessage);
      assert Setting(ab, BlockNumberInMessage) == Setting(ba, BlockNumberInMessage);
    }
  }

  /** The state of the form. */
  class AccountStatusHook {
    var accountId: string
    var isChecking: bool
    var isUpdating: bool
    var accountStatus: Option<AccountStatus>
    var isStatusChecked: bool

    /** A checked form holds a status. */
    predicate Valid()
      reads this
    {
      isStatusChecked ==> accountStatus.Some?
    }

    constructor ()
      ensures Valid()
      ensures accountId == "" && accountStatus == None && !isStatusChecked && !isChecking && !isUpdating
    {
      accountId := "";
      isChecking := false;
      isUpdating := false;
      accountStatus := None;
      isStatusChecked := false;
    }

    method SetAccountId(id: string)
      requires Valid()
      modifies this
      ensures Valid()
      ensures accountId == id
      ensures accountStatus == old(accountStatus) && isStatusChecked == old(isStatusChecked)
      ensures isChecking == old(isChecking) && isUpdating == old(isUpdating)
    {
      accountId := id;
    }

    /** `checkAccountStatus`: a blank id only raises an error; any other id is looked up and its
        status stored and marked checked. The coins stand for the mock's random settings. */
    method CheckAccountStatus(idToCheck: string, coinUrl: bool, coinNumber: bool) returns (toast: Toast)
      requires Valid()
      modifies this
      ensures Valid()
      ensures Trim(idToCheck) == "" ==>
                toast == MissingIdToast && accountStatus == old(accountStatus)
                && isStatusChecked == old(isStatusChecked) && isChecking == old(isChecking)
      ensures Trim(idToCheck) != "" ==>
                accountStatus == Some(MockCheckAccountStatus(idToCheck, coinUrl, coinNumber))
                && isStatusChecked && !isChecking && !toast.destructive
                && (toast.title == "Account Found" <==> AccountExists(idToCheck))
      ensures accountId == old(accountId) && isUpdating == old(isUpdating)
    {
      if Trim(idToCheck) == "" {
        toast := MissingIdToast;
        return;
      }
      isChecking := true;
      isStatusChecked := false;
      var status := MockCheckAccountStatus(idToCheck, coinUrl, coinNumber);
      accountStatus := Some(status);
      isStatusChecked := true;
      if status.accountExists {
        toast := Toast("Account Found", "Account " + idToCheck + " settings loaded", false);
      } else {
        toast := Toast("Account Not Found", "Account " + idToCheck + " not found. New settings will be created.", false);
      }
      isChecking := false;
    }

    /** `resetForm`: back to an empty, unchecked form. */
    method ResetForm()
      modifies this
      ensures Valid()
      ensures accountId == "" && accountStatus == None && !isStatusChecked
      ensures isChecking == old(isChecking) && isUpdating == old(isUpdating)
    {
      accountId := "";
      accountStatus := None;
      isStatusChecked := false;
    }

    /** `updateBlockSetting`: unless the status is unchecked or the form's id is empty, save the
        setting and replace it in the stored status, which a checked form always holds
        (`Valid`). The mock's failure for an empty id cannot occur behind the guard, so the
        error notice is never raised. */
    method UpdateBlockSetting(setting: BlockSetting, value: bool) returns (toast: Option<Toast>)
      requires Valid()
      modifies this
      ensures Valid()
      ensures toast.None? <==> !old(isStatusChecked) || old(accountId) == ""
      ensures toast.None? ==> accountStatus == old(accountStatus) && isUpdating == old(isUpdating)
      ensures toast.Some? ==>
                accountStatus == WithSetting(old(accountStatus), setting, value)
                && toast.value.title == "Setting Updated" && !toast.value.destructive && !isUpdating
      ensures toast.Some? ==> accountStatus.Some? && Setting(accountStatus.value, setting) == value
      ensures accountId == old(accountId) && isStatusChecked == old(isStatusChecked) && isChecking == old(isChecking)
    {
      if !isStatusChecked || accountId == "" {
        return None;
      }
      isUpdating := true;
      var response := MockUpdateBlockSetting(accountId, setting, value);
      assert response.Success?;
      accountStatus := WithSetting(accountStatus, setting, value);
      toast := Some(Toast("Setting Updated",
        SettingLabel(setting) + " has been " + EnabledText(value) + " for account " + accountId, false));
      isUpdating := false;
    }
  }
}
