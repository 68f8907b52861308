/** The component families the corpus is scoped to, looked up by product or by name. */
module Families {
  import opened Collections
  import opened Text

  datatype Family = Family(name: string, vendors: seq<string>, products: seq<string>)

  const BUSYBOX := Family("busybox", ["busybox"], ["busybox"])
  const OPENSSL := Family("openssl", ["openssl"], ["openssl"])
  const LIBCURL := Family("libcurl", ["haxx", "curl"], ["curl", "libcurl"])
  const DROPBEAR := Family("dropbear", ["dropbear", "dropbear_ssh_project", "matt_johnston"], ["dropbear", "dropbear_ssh"])
  const UCLIBC := Family("uclibc", ["uclibc", "uclibc-ng_project", "erik_andersen"], ["uclibc", "uclibc-ng"])
  const LINUX_KERNEL := Family("linux_kernel", ["linux"], ["linux_kernel"])
  const ZLIB := Family("zlib", ["zlib", "gnu"], ["zlib"])
  const OPENSSH := Family("openssh", ["openbsd"], ["openssh"])
  const GLIBC := Family("glibc", ["gnu"], ["glibc"])
  const WPA_SUPPLICANT := Family("wpa_supplicant", ["w1.fi"], ["wpa_supplicant", "hostapd"])
  const U_BOOT := Family("u-boot", ["denx"], ["u-boot"])
  const LIGHTTPD := Family("lighttpd", ["lighttpd"], ["lighttpd"])

  const COMPONENT_FAMILIES: seq<Family> := [
    BUSYBOX, OPENSSL, LIBCURL, DROPBEAR, UCLIBC, LINUX_KERNEL,
    ZLIB, OPENSSH, GLIBC, WPA_SUPPLICANT, U_BOOT, LIGHTTPD]

  /** The product index over the first `n` families; a later family would win. */
  function FindProduct(n: nat, product: string): Option<nat>
    requires n <= |COMPONENT_FAMILIES|
  {
    if n == 0 then None
    else if product in COMPONENT_FAMILIES[n - 1].products then Some(n - 1)
    else FindProduct(n - 1, product)
  }

  function FindName(n: nat, name: string): (r: Option<nat>)
    requires n <= |COMPONENT_FAMILIES|
    ensures r.Some? ==> r.value < n && COMPONENT_FAMILIES[r.value].name == name
  {
    if n == 0 then None
    else if COMPONENT_FAMILIES[n - 1].name == name then Some(n - 1)
    else FindName(n - 1, name)
  }

  /** `family_for`: the product decides, whatever the vendor. */
  function FamilyFor(product: string): Option<string> {
    if product == "" then None
    else
      match FindProduct(|COMPONENT_FAMILIES|, Lower(Strip(product)))
      case None => None
      case Some(i) => if i < |COMPONENT_FAMILIES| then Some(COMPONENT_FAMILIES[i].name) else None
  }

  // ---- facts about the table -----------------------------------------------------------------

  predicate TameChar(c: char) {
    'a' <= c <= 'z' || '0' <= c <= '9' || c == '-' || c == '_' || c == '.'
  }

  predicate Tame(s: string) {
    s != "" && forall i :: 0 <= i < |s| ==> TameChar(s[i])
  }

  /** The one family that lists a product. */
  function Owner(product: string): int {
    if product == "busybox" then 0
    else if product == "openssl" then 1
    else if product == "curl" || product == "libcurl" then 2
    else if product == "dropbear" || product == "dropbear_ssh" then 3
    else if product == "uclibc" || product == "uclibc-ng" then 4
    else if product == "linux_kernel" then 5
    else if product == "zlib" then 6
    else if product == "openssh" then 7
    else if product == "glibc" then 8
    else if product == "wpa_supplicant" || product == "hostapd" then 9
    else if product == "u-boot" then 10
    else if product == "lighttpd" then 11
    else -1
  }

  ghost predicate FamilyOk(f: Family, i: int) {
    && (forall p :: p in f.products ==> Tame(p) && Owner(p) == i)
    && (forall v :: v in f.vendors ==> Tame(v))
  }

  lemma FamiliesOk0()
    ensures FamilyOk(BUSYBOX, 0) && FamilyOk(OPENSSL, 1) && FamilyOk(LIBCURL, 2)
  {
  }

  lemma DropbearVendors()
    ensures Tame("dropbear_ssh_project") && Tame("matt_johnston")
  {
  }

  lemma FamiliesOk1()
    ensures FamilyOk(DROPBEAR, 3)
  {
    DropbearVendors();
    assert DROPBEAR.vendors == ["dropbear", "dropbear_ssh_project", "matt_johnston"];
  }

  lemma UclibcVendors()
    ensures Tame("uclibc-ng_project") && Tame("erik_andersen")
  {
  }

  lemma FamiliesOk2()
    ensures FamilyOk(UCLIBC, 4)
  {
    UclibcVendors();
    assert UCLIBC.vendors == ["uclibc", "uclibc-ng_project", "erik_andersen"];
  }

  lemma FamiliesOk3()
    ensures FamilyOk(LINUX_KERNEL, 5)
  {
  }

  lemma FamiliesOk7()
    ensures FamilyOk(ZLIB, 6) && FamilyOk(OPENSSH, 7)
  {
  }

  lemma FamiliesOk4()
    ensures FamilyOk(GLIBC, 8)
  {
  }

  lemma WpaProducts()
    ensures Tame("wpa_supplicant") && Tame("hostapd")
  {
  }

  lemma FamiliesOk6()
    ensures FamilyOk(WPA_SUPPLICANT, 9)
  {
    WpaProducts();
    assert WPA_SUPPLICANT.products == ["wpa_supplicant", "hostapd"];
  }

  lemma FamiliesOk5()
    ensures FamilyOk(U_BOOT, 10) && FamilyOk(LIGHTTPD, 11)
  {
  }

  lemma TableOk(i: nat)
    requires i < |COMPONENT_FAMILIES|
    ensures FamilyOk(COMPONENT_FAMILIES[i], i)
  {
    FamiliesOk0();
    FamiliesOk1();
    FamiliesOk2();
    FamiliesOk3();
    FamiliesOk4();
    FamiliesOk5();
    FamiliesOk6();
    FamiliesOk7();
  }

  lemma {:induction false} FindProductIsOwner(n: nat, product: string)
    requires n <= |COMPONENT_FAMILIES|
    ensures FindProduct(n, product).Some? ==> FindProduct(n, product).value == Owner(product)
    ensures forall i :: 0 <= i < n && product in COMPONENT_FAMILIES[i].products ==> FindProduct(n, product) == Some(i)
  {
    if n > 0 {
      FindProductIsOwner(n - 1, product);
      TableOk(n - 1);
      if product in COMPONENT_FAMILIES[n - 1].products {
        forall i | 0 <= i < n && product in COMPONENT_FAMILIES[i].products
          ensures i == n - 1
        {
          TableOk(i);
        }
      }
    }
  }

  lemma TameIsNormal(s: string)
    requires Tame(s)
    ensures Lower(s) == s && Strip(s) == s && ':' !in s && '\\' !in s
  {
    StripTrims(s);
    assert TameChar(s[0]) && TameChar(s[|s| - 1]);
    forall i | 0 <= i < |s|
      ensures Lower(s)[i] == s[i] && s[i] != ':' && s[i] != '\\'
    {
      assert TameChar(s[i]);
    }
  }

  /** Every product a family lists belongs to that family and to no other. */
  lemma ProductsAreOwn(i: nat, product: string)
    requires i < |COMPONENT_FAMILIES| && product in COMPONENT_FAMILIES[i].products
    ensures FamilyFor(product) == Some(COMPONENT_FAMILIES[i].name)
  {
    TableOk(i);
    TameIsNormal(product);
    FindProductIsOwner(|COMPONENT_FAMILIES|, product);
  }

  lemma {:induction false} FindProductListed(n: nat, product: string)
    requires n <= |COMPONENT_FAMILIES|
    ensures FindProduct(n, product).Some? ==>
              FindProduct(n, product).value < n && product in COMPONENT_FAMILIES[FindProduct(n, product).value].products
  {
    if n > 0 {
      FindProductListed(n - 1, product);
    }
  }

  /** A product belongs to a family exactly when the family lists it, up to blanks around it
  and case. */
  lemma FamilyForIff(product: string, name: string)
    ensures FamilyFor(product) == Some(name) <==>
            exists i :: 0 <= i < |COMPONENT_FAMILIES| && COMPONENT_FAMILIES[i].name == name
                        && Lower(Strip(product)) in COMPONENT_FAMILIES[i].products
  {
    var n, key := |COMPONENT_FAMILIES|, Lower(Strip(product));
    FindProductListed(n, key);
    FindProductIsOwner(n, key);
    forall i | 0 <= i < n && key in COMPONENT_FAMILIES[i].products
      ensures product != ""
    {
      TableOk(i);
    }
  }

  /** A family's name is owned by the family itself. */
  lemma NameIsOwned(i: nat)
    requires i < |COMPONENT_FAMILIES|
    ensures Owner(COMPONENT_FAMILIES[i].name) == i
  {
  }

  /** Family names are unique, so looking one up finds its family. */
  lemma {:induction false} FindNameIs(n: nat, i: nat)
    requires i < n <= |COMPONENT_FAMILIES|
    ensures FindName(n, COMPONENT_FAMILIES[i].name) == Some(i)
  {
    NameIsOwned(i);
    NameIsOwned(n - 1);
    if i < n - 1 {
      FindNameIs(n - 1, i);
    }
  }
}
