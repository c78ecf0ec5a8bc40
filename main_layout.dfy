/**
 * The application shell of frontend/src/components/layout/MainLayout.tsx: the navigation
 * items offered to signed-in and anonymous users, the drawer, and the confirmation dialog
 * that stands between a click and the pages that leave the generator or end the session.
 * Navigation and the `logout` dispatch are recorded as effects rather than performed.
 */
module MainLayout {
  import opened Wrappers

  /** One entry of the navigation list (its icon is not modelled). */
  datatype NavItem = NavItem(text: string, path: string)

  /** What a confirmed dialog does. */
  datatype ConfirmAction = LogoutAndGoHome | GoTo(path: string)

  /** An effect of the layout on the rest of the application. */
  datatype Effect = Navigated(path: string) | LoggedOut

  /** `dialogConfig`. */
  datatype Dialog = Dialog(open: bool, title: string, message: string, confirmText: Option<string>,
                           confirmAction: Option<ConfirmAction>, confirmColor: Option<string>)

  const ClosedDialog := Dialog(false, "", "", None, None, None)

  /** `getNavItems`: the generator first, then the pages for the user's situation. */
  function NavItems(isAuthenticated: bool): (r: seq<NavItem>)
    ensures |r| >= 1 && r[0] == NavItem("Generator", "/")
    ensures isAuthenticated ==>
      r[1..] == [NavItem("My Palettes", "/my-palettes"), NavItem("Change Password", "#"), NavItem("Logout", "#")]
    ensures !isAuthenticated ==> r[1..] == [NavItem("Login", "/login"), NavItem("Sign Up", "/sign-up")]
  {
    [NavItem("Generator", "/")]
    + if isAuthenticated then
        [NavItem("My Palettes", "/my-palettes"), NavItem("Change Password", "#"), NavItem("Logout", "#")]
      else
        [NavItem("Login", "/login"), NavItem("Sign Up", "/sign-up")]
  }

  /**
   * The dialog `handleLogout`, `handleChangePassword`, `handleLogin` and `handleSignUp`
   * open, by the text of the item clicked; any other item opens none.
   */
  function ConfirmationFor(text: string): (r: Option<Dialog>)
    ensures r.Some? <==> text == "Logout" || text == "Change Password" || text == "Login" || text == "Sign Up"
    ensures r.Some? ==> r.value.open && r.value.confirmAction.Some? && r.value.confirmText.Some?
    ensures text == "Logout" ==> r.value.confirmAction == Some(LogoutAndGoHome) && r.value.confirmColor == Some("error")
    ensures text == "Change Password" ==> r.value.confirmAction == Some(GoTo("/change-password"))
    ensures text == "Login" ==> r.value.confirmAction == Some(GoTo("/login"))
    ensures text == "Sign Up" ==> r.value.confirmAction == Some(GoTo("/sign-up"))
    ensures r.Some? && text != "Logout" ==> r.value.confirmColor == Some("primary")
  {
    if text == "Logout" then
      Some(Dialog(true, "Confirm Logout", "Are you sure you want to log out?", Some("Logout"),
                  Some(LogoutAndGoHome), Some("error")))
    else if text == "Change Password" then
      Some(Dialog(true, "Change Password", "You will be redirected to the change password page. Continue?",
                  Some("Continue"), Some(GoTo("/change-password")), Some("primary")))
    else if text == "Login" then
      Some(Dialog(true, "Login", "You will be redirected to the login page. Continue?",
                  Some("Continue"), Some(GoTo("/login")), Some("primary")))
    else if text == "Sign Up" then
      Some(Dialog(true, "Sign Up", "You will be redirected to the sign-up page. Continue?",
                  Some("Continue"), Some(GoTo("/sign-up")), Some("primary")))
    else None
  }

  /** What running a confirmed action does: logging out dispatches `logout`, then goes home. */
  function Effects(a: ConfirmAction): (r: seq<Effect>)
    ensures |r| >= 1 && r[|r| - 1].Navigated?
    ensures LoggedOut in r <==> a == LogoutAndGoHome
  {
    match a
    case LogoutAndGoHome => [LoggedOut, Navigated("/")]
    case GoTo(path) => [Navigated(path)]
  }

  class Layout {
    const isMobile: bool
    /** Whether the drawer is open. */
    var open: bool
    var dialog: Dialog
    /** The navigations and dispatches performed so far, in order. */
    var effects: seq<Effect>

    /** The drawer starts open on wide screens and closed on mobile; no dialog is shown. */
    constructor (isMobile: bool)
      ensures this.isMobile == isMobile && open == !isMobile
      ensures dialog == ClosedDialog && effects == []
    {
      this.isMobile := isMobile;
      open := !isMobile;
      dialog := ClosedDialog;
      effects := [];
    }

    /** `toggleDrawer`. */
    method ToggleDrawer()
      modifies this
      ensures open == !old(open)
      ensures dialog == old(dialog) && effects == old(effects)
    {
      open := !open;
    }

    /** `handleCloseDialog`: the dialog closes and keeps its title, message, action and colour. */
    method HandleCloseDialog()
      modifies this
      ensures dialog == old(dialog).(open := false)
      ensures open == old(open) && effects == old(effects)
    {
      dialog := dialog.(open := false);
    }

    /** `handleConfirm`: the stored action runs if there is one, then the dialog closes. */
    method HandleConfirm()
      modifies this
      ensures old(dialog).confirmAction.Some? ==> effects == old(effects) + Effects(old(dialog).confirmAction.value)
      ensures old(dialog).confirmAction.None? ==> effects == old(effects)
      ensures dialog == old(dialog).(open := false) && open == old(open)
    {
      if dialog.confirmAction.Some? {
        effects := effects + Effects(dialog.confirmAction.value);
      }
      HandleCloseDialog();
    }

    /**
     * `handleNavItemClick`: the four guarded items open their dialog and change nothing
     * else; any other item navigates to its path and, on mobile, closes the drawer.
     */
    method HandleNavItemClick(path: string, text: string)
      modifies this
      ensures ConfirmationFor(text).Some? ==>
        dialog == ConfirmationFor(text).value && effects == old(effects) && open == old(open)
      ensures ConfirmationFor(text).None? ==>
        effects == old(effects) + [Navigated(path)] && dialog == old(dialog)
        && open == (if isMobile then false else old(open))
    {
      var confirmation := ConfirmationFor(text);
      if confirmation.Some? {
        dialog := confirmation.value;
      } else {
        effects := effects + [Navigated(path)];
        if isMobile {
          open := false;
        }
      }
    }
  }

  /**
   * Every navigation item leads somewhere: an unguarded one straight to its own path; a
   * guarded one, once confirmed, to a page, with only Logout signing the user out, and
   * Login and Sign Up to their item's own path.
   */
  lemma NavItemsLead(isAuthenticated: bool, i: nat)
    requires i < |NavItems(isAuthenticated)|
    ensures var item := NavItems(isAuthenticated)[i];
      && (ConfirmationFor(item.text).None? ==> item.path != "#")
      && (ConfirmationFor(item.text).Some? ==>
            var fx := Effects(ConfirmationFor(item.text).value.confirmAction.value);
            && (LoggedOut in fx <==> item.text == "Logout")
            && (item.path != "#" ==> fx[|fx| - 1] == Navigated(item.path)))
  {
    var items := NavItems(isAuthenticated);
    var item := items[i];
    if i == 0 {
      assert item == NavItem("Generator", "/");
    } else {
      assert item == items[1..][i - 1];
    }
  }

  /** Clicking a guarded item and then confirming performs exactly the dialog's action. */
  method ClickAndConfirm(layout: Layout, item: NavItem)
    requires ConfirmationFor(item.text).Some?
    modifies layout
    ensures layout.effects == old(layout.effects) + Effects(ConfirmationFor(item.text).value.confirmAction.value)
    ensures !layout.dialog.open && layout.open == old(layout.open)
  {
    layout.HandleNavItemClick(item.path, item.text);
    layout.HandleConfirm();
  }

  /** Clicking a guarded item and then cancelling changes nothing but the dialog. */
  method ClickAndCancel(layout: Layout, item: NavItem)
    requires ConfirmationFor(item.text).Some?
    modifies layout
    ensures layout.effects == old(layout.effects) && layout.open == old(layout.open)
    ensures layout.dialog == ConfirmationFor(item.text).value.(open := false)
  {
    layout.HandleNavItemClick(item.path, item.text);
    layout.HandleCloseDialog();
  }
}
