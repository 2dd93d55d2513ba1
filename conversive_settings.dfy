/** The Conversive settings form: look up an account, switch its Conversive integration on or
    off and save it, and load, toggle and save the account's beta features. */
module ConversiveSettings {
  import opened Wrappers
  import opened JsString
  import opened AccountCheck

  /** What the back end reports for an account. */
  datatype ConversiveStatus = ConversiveStatus(accountExists: bool, conversiveIntegrationEnabled: bool)

  /** A beta feature; `enabled` may be absent. */
  datatype UseCase = UseCase(featureId: int, featureName: string, featureCode: string, enabled: Option<bool>)

  /** One entry of the save request: the feature and its new value, 1 for on and 0 for off. */
  datatype FeatureValue = FeatureValue(featureId: int, featureValue: int)

  /** The request that saves the beta features. */
  datatype UseCaseUpdatePayload = UseCaseUpdatePayload(accountId: int, username: string, features: seq<FeatureValue>)

  /** The request that saves the integration switch. */
  datatype IntegrationRequest = IntegrationRequest(accountId: string, value: bool)

  /** `mockCheckConversiveStatus`: the account exists by the shared last-digit rule; an existing
      account's integration switch is the coin `coin`, a missing account's is off. */
  function MockCheckConversiveStatus(id: string, coin: bool): (s: ConversiveStatus)
    ensures s.accountExists <==> AccountExists(id)
    ensures !s.accountExists ==> !s.conversiveIntegrationEnabled
    ensures s.accountExists ==> s.conversiveIntegrationEnabled == coin
  {
    var exists_ := AccountExists(id);
    ConversiveStatus(exists_, if exists_ then coin else false)
  }

  /** `mockSaveIntegrationSetting`: fails with "Invalid account ID" exactly for the empty id. */
  function MockSaveIntegrationSetting(id: string, value: bool): (r: Result<string, string>)
    ensures r.Failure? <==> id == ""
    ensures r.Failure? ==> r.error == "Invalid account ID"
  {
    if id == "" then Failure("Invalid account ID")
    else Success("Account " + id + " conversive integration saved as " + BoolText(value))
  }

  /** `mockFetchBetaFeatures`: the two beta features, each switched on by its own coin. */
  function MockFetchBetaFeatures(coin37: bool, coin39: bool): (fs: seq<UseCase>)
    ensures |fs| == 2 && fs[0].featureId == 37 && fs[1].featureId == 39
    ensures fs[0].enabled == Some(coin37) && fs[1].enabled == Some(coin39)
  {
    [ UseCase(37, "Conversive Beta Features", "CONVRSV-BETA-FEATURES", Some(coin37)),
      UseCase(39, "Embedded Messaging", "EMBEDDED-MESSAGING", Some(coin39)) ]
  }

  /** The integration switch set to `value`; with no status there is nothing to set. */
  function WithIntegration(prev: Option<ConversiveStatus>, value: bool): (r: Option<ConversiveStatus>)
    ensures prev.None? <==> r.None?
    ensures r.Some? ==> r.value.conversiveIntegrationEnabled == value
    ensures r.Some? ==> r.value.accountExists == prev.value.accountExists
  {
    match prev
    case None => None
    case Some(s) => Some(s.(conversiveIntegrationEnabled := value))
  }

  /** Every feature with id `featureId` switched to `enabled`, the others untouched, same
      length and order. */
  function SetFeatureEnabled(features: seq<UseCase>, featureId: int, enabled: bool): (r: seq<UseCase>)
    ensures |r| == |features|
    ensures forall i :: 0 <= i < |features| && features[i].featureId == featureId ==>
              r[i] == features[i].(enabled := Some(enabled))
    ensures forall i :: 0 <= i < |features| && features[i].featureId != featureId ==> r[i] == features[i]
  {
    if features == [] then []
    else
      var f := features[0];
      [if f.featureId == featureId then f.(enabled := Some(enabled)) else f]
        + SetFeatureEnabled(features[1..], featureId, enabled)
  }

  /** Setting the same value twice is setting it once. */
  lemma SetFeatureEnabledIdempotent(features: seq<UseCase>, featureId: int, enabled: bool)
    ensures SetFeatureEnabled(SetFeatureEnabled(features, featureId, enabled), featureId, enabled)
         == SetFeatureEnabled(features, featureId, enabled)
  {
    var once := SetFeatureEnabled(features, featureId, enabled);
    var twice := SetFeatureEnabled(once, featureId, enabled);
    assert forall i :: 0 <= i < |features| ==> twice[i] == once[i];
  }

  /** Toggles of two different features commute. */
  lemma SetFeatureEnabledCommutes(features: seq<UseCase>, a: int, va: bool, b: int, vb: bool)
    requires a != b
    ensures SetFeatureEnabled(SetFeatureEnabled(features, a, va), b, vb)
         == SetFeatureEnabled(SetFeatureEnabled(features, b, vb), a, va)
  {
    var ab := SetFeatureEnabled(SetFeatureEnabled(features, a, va), b, vb);
    var ba := SetFeatureEnabled(SetFeatureEnabled(features, b, vb), a, va);
    assert forall i :: 0 <= i < |features| ==> ab[i] == ba[i];
  }

  /** A feature id that no feature carries leaves the list as it is. */
  lemma SetAbsentFeature(features: seq<UseCase>, featureId: int, enabled: bool)
    requires forall i :: 0 <= i < |features| ==> features[i].featureId != featureId
    ensures SetFeatureEnabled(features, featureId, enabled) == features
  {
    var r := SetFeatureEnabled(features, featureId, enabled);
    assert forall i :: 0 <= i < |features| ==> r[i] == features[i];
  }

  /** The value the save request carries for a feature: 1 when switched on, 0 when switched off
      or unset. */
  function FeatureFlag(enabled: Option<bool>): (v: int)
    ensures v == 1 <==> enabled == Some(true)
    ensures v == 0 || v == 1
  {
    if enabled == Some(true) then 1 else 0
  }

  /** The save request: one entry per feature, in order, with the feature's id and flag. */
  function BuildPayload(accountId: int, username: string, features: seq<UseCase>): (p: UseCaseUpdatePayload)
    ensures p.accountId == accountId && p.username == username
    ensures |p.features| == |features|
    ensures forall i :: 0 <= i < |features| ==> p.features[i].featureId == features[i].featureId
    ensures forall i :: 0 <= i < |features| ==>
              (p.features[i].featureValue == 1 <==> features[i].enabled == Some(true))
    ensures forall i :: 0 <= i < |features| ==>
              (p.features[i].featureValue == 0 <==> features[i].enabled != Some(true))
  {
    UseCaseUpdatePayload(accountId, username,
      seq(|features|, i requires 0 <= i < |features| => FeatureValue(features[i].featureId, FeatureFlag(features[i].enabled))))
  }

  /** After a feature is switched, the save request carries the new value for it. */
  lemma PayloadAfterToggle(accountId: int, username: string, features: seq<UseCase>, featureId: int, enabled: bool, i: int)
    requires 0 <= i < |features| && features[i].featureId == featureId
    ensures BuildPayload(accountId, username, SetFeatureEnabled(features, featureId, enabled)).features[i]
         == FeatureValue(featureId, if enabled then 1 else 0)
  {
    var r := SetFeatureEnabled(features, featureId, enabled);
    assert r[i].enabled == Some(enabled);
  }

  /** The state of the form. */
  class ConversiveSettingsHook {
    var accountId: string
    var username: string
    var isChecking: bool
    var isUpdating: bool
    var isLoadingBetaFeatures: bool
    var accountStatus: Option<ConversiveStatus>
    var isStatusChecked: bool
    var betaFeatures: seq<UseCase>

    /** A checked form holds a status. */
    predicate Valid()
      reads this
    {
      isStatusChecked ==> accountStatus.Some?
    }

    constructor ()
      ensures Valid()
      ensures accountId == "" && username == "" && accountStatus == None && !isStatusChecked
      ensures betaFeatures == [] && !isChecking && !isUpdating && !isLoadingBetaFeatures
    {
      accountId := "";
      username := "";
      isChecking := false;
      isUpdating := false;
      isLoadingBetaFeatures := false;
      accountStatus := None;
      isStatusChecked := false;
      betaFeatures := [];
    }

    method SetAccountId(id: string)
      requires Valid()
      modifies this
      ensures Valid()
      ensures accountId == id
      ensures username == old(username) && accountStatus == old(accountStatus)
      ensures isStatusChecked == old(isStatusChecked) && betaFeatures == old(betaFeatures)
      ensures isChecking == old(isChecking) && isUpdating == old(isUpdating)
      ensures isLoadingBetaFeatures == old(isLoadingBetaFeatures)
    {
      accountId := id;
    }

    method SetUsername(name: string)
      requires Valid()
      modifies this
      ensures Valid()
      ensures username == name
      ensures accountId == old(accountId) && accountStatus == old(accountStatus)
      ensures isStatusChecked == old(isStatusChecked) && betaFeatures == old(betaFeatures)
      ensures isChecking == old(isChecking) && isUpdating == old(isUpdating)
      ensures isLoadingBetaFeatures == old(isLoadingBetaFeatures)
    {
      username := name;
    }

    /** `checkAccountStatus`: a blank id only raises an error; any other id is looked up and its
        status stored and marked checked. `coin` stands for the mock's random switch. */
    method CheckAccountStatus(idToCheck: string, coin: bool) returns (toast: Toast)
      requires Valid()
      modifies this
      ensures Valid()
      ensures Trim(idToCheck) == "" ==>
                toast == MissingIdToast && accountStatus == old(accountStatus)
                && isStatusChecked == old(isStatusChecked) && isChecking == old(isChecking)
      ensures Trim(idToCheck) != "" ==>
                accountStatus == Some(MockCheckConversiveStatus(idToCheck, coin))
                && isStatusChecked && !isChecking && !toast.destructive
                && (toast.title == "Account Found" <==> AccountExists(idToCheck))
      ensures accountId == old(accountId) && username == old(username) && betaFeatures == old(betaFeatures)
      ensures isUpdating == old(isUpdating) && isLoadingBetaFeatures == old(isLoadingBetaFeatures)
    {
      if Trim(idToCheck) == "" {
        toast := MissingIdToast;
        return;
      }
      isChecking := true;
      isStatusChecked := false;
      var status := MockCheckConversiveStatus(idToCheck, coin);
      accountStatus := Some(status);
      isStatusChecked := true;
      if status.accountExists {
        toast := Toast("Account Found", "Account " + idToCheck + " conversive settings loaded", false);
      } else {
        toast := Toast("Account Not Found", "Account " + idToCheck + " not found. New settings will be created.", false);
      }
      isChecking := false;
    }

    /** `resetForm`: back to an empty, unchecked form. */
    method ResetForm()
      modifies this
      ensures Valid()
      ensures accountId == "" && username == "" && accountStatus == None && !isStatusChecked && betaFeatures == []
      ensures isChecking == old(isChecking) && isUpdating == old(isUpdating)
      ensures isLoadingBetaFeatures == old(isLoadingBetaFeatures)
    {
      accountId := "";
      username := "";
      accountStatus := None;
      isStatusChecked := false;
      betaFeatures := [];
    }

    /** `updateIntegrationSetting`: flip the switch in the stored status, if there is one. */
    method UpdateIntegrationSetting(value: bool)
      requires Valid()
      modifies this
      ensures Valid()
      ensures accountStatus == WithIntegration(old(accountStatus), value)
      ensures accountId == old(accountId) && username == old(username) && betaFeatures == old(betaFeatures)
      ensures isStatusChecked == old(isStatusChecked) && isChecking == old(isChecking)
      ensures isUpdating == old(isUpdating) && isLoadingBetaFeatures == old(isLoadingBetaFeatures)
    {
      accountStatus := WithIntegration(accountStatus, value);
    }

    /** `saveIntegration`: unless the status is unchecked or the id is empty, send the stored
        switch (off when there is no status) and report it saved. A checked form always holds
        a status (`Valid`), so the fallback to off is never taken. The mock's failure for an
        empty id cannot occur behind the guard, so the error notice is never raised. */
    method SaveIntegration(idToSave: string) returns (request: Option<IntegrationRequest>, toast: Option<Toast>)
      requires Valid()
      modifies this
      ensures Valid()
      ensures request.None? <==> !old(isStatusChecked) || idToSave == ""
      ensures request.None? ==> toast.None? && isUpdating == old(isUpdating)
      ensures request.Some? ==>
                request.value == IntegrationRequest(idToSave, accountStatus.Some? && accountStatus.value.conversiveIntegrationEnabled)
                && toast.Some? && toast.value.title == "Integration Saved" && !isUpdating
      ensures request.Some? ==> accountStatus.Some? && request.value.value == accountStatus.value.conversiveIntegrationEnabled
      ensures accountId == old(accountId) && username == old(username) && betaFeatures == old(betaFeatures)
      ensures accountStatus == old(accountStatus) && isStatusChecked == old(isStatusChecked)
      ensures isChecking == old(isChecking) && isLoadingBetaFeatures == old(isLoadingBetaFeatures)
    {
      if !isStatusChecked || idToSave == "" {
        return None, None;
      }
      isUpdating := true;
      var value := accountStatus.Some? && accountStatus.value.conversiveIntegrationEnabled;
      request := Some(IntegrationRequest(idToSave, value));
      var response := MockSaveIntegrationSetting(idToSave, value);
      assert response.Success?;
      toast := Some(Toast("Integration Saved",
        "Conversive integration has been " + EnabledText(value) + " for account " + idToSave, false));
      isUpdating := false;
    }

    /** `fetchBetaFeatures`: unless the id or the username is blank, load the account's beta
        features. The coins stand for the mock's random switches. */
    method FetchBetaFeatures(idToFetch: string, usernameToFetch: string, coin37: bool, coin39: bool)
      returns (toast: Toast)
      requires Valid()
      modifies this
      ensures Valid()
      ensures Trim(idToFetch) == "" || Trim(usernameToFetch) == "" ==>
                toast.destructive && betaFeatures == old(betaFeatures)
                && isLoadingBetaFeatures == old(isLoadingBetaFeatures)
      ensures Trim(idToFetch) != "" && Trim(usernameToFetch) != "" ==>
                !toast.destructive && betaFeatures == MockFetchBetaFeatures(coin37, coin39)
                && !isLoadingBetaFeatures
      ensures accountId == old(accountId) && username == old(username) && accountStatus == old(accountStatus)
      ensures isStatusChecked == old(isStatusChecked) && isChecking == old(isChecking) && isUpdating == old(isUpdating)
    {
      if Trim(idToFetch) == "" || Trim(usernameToFetch) == "" {
        toast := Toast("Error", "Please enter both Account ID and Username", true);
        return;
      }
      isLoadingBetaFeatures := true;
      var fetched := MockFetchBetaFeatures(coin37, coin39);
      betaFeatures := fetched;
      toast := Toast("Beta Features Loaded", "Found " + NatToString(|fetched|) + " beta features for " + usernameToFetch, false);
      isLoadingBetaFeatures := false;
    }

    /** `updateBetaFeatureSetting`: switch the features with the given id. */
    method UpdateBetaFeatureSetting(featureId: int, enabled: bool)
      requires Valid()
      modifies this
      ensures Valid()
      ensures betaFeatures == SetFeatureEnabled(old(betaFeatures), featureId, enabled)
      ensures accountId == old(accountId) && username == old(username) && accountStatus == old(accountStatus)
      ensures isStatusChecked == old(isStatusChecked) && isChecking == old(isChecking)
      ensures isUpdating == old(isUpdating) && isLoadingBetaFeatures == old(isLoadingBetaFeatures)
    {
      betaFeatures := SetFeatureEnabled(betaFeatures, featureId, enabled);
    }

    /** `saveBetaFeatures`: unless the id or the username is empty, send one entry per beta
        feature. `parsedAccountId` is the number `parseInt` reads from the id. */
    method SaveBetaFeatures(idToSave: string, usernameToSave: string, parsedAccountId: int)
      returns (payload: Option<UseCaseUpdatePayload>, toast: Option<Toast>)
      requires Valid()
      modifies this
      ensures Valid()
      ensures payload.None? <==> idToSave == "" || usernameToSave == ""
      ensures payload.None? ==> toast.None? && isUpdating == old(isUpdating)
      ensures payload.Some? ==>
                payload.value == BuildPayload(parsedAccountId, usernameToSave, betaFeatures)
                && toast.Some? && toast.value.title == "Beta Features Saved" && !isUpdating
      ensures accountId == old(accountId) && username == old(username) && accountStatus == old(accountStatus)
      ensures betaFeatures == old(betaFeatures) && isStatusChecked == old(isStatusChecked)
      ensures isChecking == old(isChecking) && isLoadingBetaFeatures == old(isLoadingBetaFeatures)
    {
      if idToSave == "" || usernameToSave == "" {
        return None, None;
      }
      isUpdating := true;
      payload := Some(BuildPayload(parsedAccountId, usernameToSave, betaFeatures));
      toast := Some(Toast("Beta Features Saved", "All beta features have been saved successfully", false));
      isUpdating := false;
    }
  }
}
